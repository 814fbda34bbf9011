/**
 The ledger of rai/secure.cpp: `ledger::process` adds a block to the tables, `ledger::rollback` takes a block and all
 that depends on it back out. The class keeps one field per table and updates it in the order of the source; the ghost
 lattice says what the tables mean.
 */
module Ledger {
  import opened Lattice
  import opened Store
  import opened Sums

  /** The outcome of `process`; the last one is that the call never returns. */
  datatype Code =
    | Progress | BadSignature | Old | Overspend | Fork | Unreceivable | GapPrevious | GapSource | OpenedBurnAccount
    | NoReturn

  /** The outcome of a balance or amount walk; the last one is that the code sets no result. */
  datatype Walk = NeverEnds | Ends(value: Amount) | Unset

  /** The outcome of a rollback: it returns, it visits some block forever, or an assertion stops it. */
  datatype Ending = Returned | Endless | Aborted

  /** The outcome of one visit of a walk. */
  datatype Visit = Stays | Goes(next: Hash, result: Amount)

  /** The walks find in the tables what the lattice says of its blocks; there may be more in the tables. */
  ghost predicate Readable(blocks: map<Hash, Block>, blockInfos: map<Hash, BlockInfo>, l: Lattice) {
    && Chains(l)
    && (forall h | h in l.blocks :: h in blocks && blocks[h] == l.blocks[h])
    && l.genesisAccount !in blocks
    && (forall h {:trigger BlockInfoOk(blockInfos, h, l.place[h])} | h in l.place :: BlockInfoOk(blockInfos, h, l.place[h]))
  }

  /** What `ledger::account` relies on: following the successors of a block leads to a block with an info, or to a
      frontier, of the same account. It says nothing about the block and account tables, which a rollback has already
      changed when it looks up an account. */
  ghost predicate Traceable(successors: map<Hash, Hash>, frontiers: map<Hash, Account>, blockInfos: map<Hash, BlockInfo>,
                            l: Lattice)
  {
    && 1 !in l.place && 1 !in blockInfos
    && (forall h {:trigger Traced(successors, frontiers, blockInfos, l, h)} | h in l.place ::
          Traced(successors, frontiers, blockInfos, l, h))
  }

  ghost predicate Traced(successors: map<Hash, Hash>, frontiers: map<Hash, Account>, blockInfos: map<Hash, BlockInfo>,
                         l: Lattice, h: Hash)
    requires h in l.place
  {
    var successor := if h in successors then successors[h] else NO_HASH;
    && (if successor == NO_HASH then h in frontiers && frontiers[h] == l.place[h].account
        else && successor in l.place
             && l.place[successor].account == l.place[h].account
             && l.place[successor].height > l.place[h].height)
    && (h in blockInfos ==> blockInfos[h].account == l.place[h].account)
  }

  lemma TablesTraceable(t: Tables, l: Lattice)
    requires Indexed(t, l)
    ensures Traceable(t.successors, t.frontiers, t.blockInfos, l)
  {
    assert Reserved(l, 1);
    forall h | h in l.place
      ensures Traced(t.successors, t.frontiers, t.blockInfos, l, h)
    {
      assert SuccessorOk(l, h, t.successors[h]);
      assert BlockInfoOk(t.blockInfos, h, l.place[h]);
      if t.successors[h] == NO_HASH {
        FrontierOf(t, l, h);
      } else {
        assert Placed(l, t.successors[h]);
      }
    }
  }

  lemma TablesReadable(t: Tables, l: Lattice)
    requires Indexed(t, l)
    ensures Readable(t.blocks, t.blockInfos, l)
  {
    assert Reserved(l, l.genesisAccount);
  }

  /** The accounts can still be found while the last block `h` of a chain is being taken off. */
  lemma TraceableWithout(t: Tables, l: Lattice, h: Hash)
    requires Indexed(t, l) && h in l.place && IsHead(l, h)
    ensures Traceable(t.successors - {h}, t.frontiers, t.blockInfos, l)
  {
    TablesTraceable(t, l);
    FrontierOf(t, l, h);
    forall x | x in l.place
      ensures Traced(t.successors - {h}, t.frontiers, t.blockInfos, l, x)
    {
      assert Traced(t.successors, t.frontiers, t.blockInfos, l, x);
    }
  }

  /** The account of `l` that `a` names has been opened. */
  ghost predicate IsOpened(l: Lattice, a: Account) {
    exists h :: h in l.place && l.place[h].account == a
  }

  /** What `process` must answer to block `b` with hash `h`, signed by each account of `signers`: in terms of the lattice,
      without any table. */
  ghost function Verdict(l: Lattice, h: Hash, b: Block, signers: set<Account>): Code
    requires Chains(l)
  {
    if h in l.blocks then Old
    else match b
      case Send(previous, _, balance) =>
        if previous !in l.blocks then GapPrevious
        else if !IsHead(l, previous) then Fork
        else if l.place[previous].account !in signers then BadSignature
        else if balance > l.place[previous].balance then Overspend
        else Progress
      case SendV2(previous, _) =>
        if previous !in l.blocks then GapPrevious
        else if !IsHead(l, previous) then Fork
        else if l.place[previous].account !in signers then BadSignature
        else Progress
      case Change(previous, _) =>
        if previous !in l.blocks then GapPrevious
        else if !IsHead(l, previous) then Fork
        else if l.place[previous].account !in signers then BadSignature
        else if !Walkable(l, previous) then NoReturn
        else Progress
      case Receive(previous, source) =>
        if source !in l.blocks then GapSource
        else if previous !in l.blocks then GapPrevious
        else if !IsHead(l, previous) then Fork
        else if l.place[previous].account !in signers then BadSignature
        else if !Collectable(l, source, l.place[previous].account) then Unreceivable
        else Progress
      case Open(source, _, account) =>
        if source !in l.blocks then GapSource
        else if account !in signers then BadSignature
        else if IsOpened(l, account) then Fork
        else if !Collectable(l, source, account) then Unreceivable
        else if account == BURN_ACCOUNT then OpenedBurnAccount
        else Progress
  }

  /** The balance of the account before block `h`. */
  ghost function BalanceBelow(l: Lattice, h: Hash): Amount
    requires Chains(l) && h in l.blocks
  {
    assert Placed(l, h);
    if l.blocks[h].Open? then 0 else l.place[l.blocks[h].previous].balance
  }

  /** `amount_visitor` started at `h` ends. */
  ghost predicate AmountWalkable(l: Lattice, h: Hash)
    requires Chains(l) && h in l.blocks
  {
    assert Placed(l, h);
    match l.blocks[h]
    case Send(_, _, _) => SendWalkable(l, h)
    case Receive(_, source) => SendWalkable(l, source)
    case Open(source, _, _) => h == l.genesis || SendWalkable(l, source)
    case _ => true
  }

  lemma OpenedIsEntered(t: Tables, l: Lattice, a: Account)
    requires Indexed(t, l)
    ensures a in t.accounts <==> IsOpened(l, a)
  {
    if a in t.accounts {
      assert AccountOk(l, a, t.accounts[a]);
    }
    if h :| h in l.place && l.place[h].account == a {
      assert UnderHead(t.accounts, l.place[h]);
    }
  }

  class Ledger {
    const genesisAccount: Account
    var blocks: map<Hash, Block>
    var successors: map<Hash, Hash>
    var frontiers: map<Hash, Account>
    var accounts: map<Account, AccountInfo>
    var pending: map<PendingKey, PendingInfo>
    var blockInfos: map<Hash, BlockInfo>
    var representation: map<Account, Amount>
    ghost var lattice: Lattice

    ghost function View(): Tables
      reads this
    {
      Tables(blocks, successors, frontiers, accounts, pending, blockInfos, representation)
    }

    ghost predicate Valid()
      reads this
    {
      Store.Valid(View(), lattice) && genesisAccount == lattice.genesisAccount
    }

    // -------------------------------------------------------------------------------------------------------
    // Walks
    // -------------------------------------------------------------------------------------------------------

    /** One visit of `balance_visitor`: from block `h` it adds to `result` and goes on to another block, or ends. */
    method VisitForBalance(ghost l: Lattice, h: Hash, result: Amount) returns (v: Visit)
      requires Readable(blocks, blockInfos, l) && l.genesisAccount == genesisAccount && h in l.blocks
      requires result + l.place[h].balance < MODULUS
      ensures v.Stays? ==> !Walkable(l, h)
      ensures v.Goes? && v.next == NO_HASH ==> Walkable(l, h) && v.result == result + l.place[h].balance
      ensures v.Goes? && v.next != NO_HASH ==>
                && v.next in l.blocks && l.place[v.next].rank < l.place[h].rank
                && v.result + l.place[v.next].balance == result + l.place[h].balance
                && (Walkable(l, h) <==> Walkable(l, v.next))
      decreases l.place[h].rank, 1
    {
      assert Placed(l, h);
      assert !l.blocks[h].Open? ==> !Reserved(l, l.blocks[h].previous);
      assert BlockInfoOk(blockInfos, h, l.place[h]);
      match blocks[h]
      case Send(_, _, balance) =>
        v := Goes(NO_HASH, Add128(result, balance));
      case SendV2(_, _) =>
        // The visitor changes nothing here, so the walk stays at this block forever.
        v := Stays;
      case Receive(previous, source) =>
        var amount := AmountOfSource(l, source);
        v := if amount.NeverEnds? then Stays
             else if h in blockInfos then Goes(NO_HASH, Add128(result, blockInfos[h].balance))
             else Goes(previous, Add128(result, amount.value));
      case Open(source, _, _) =>
        if source !in blocks {
          assert h == l.genesis;
          v := Goes(NO_HASH, Add128(result, GENESIS_AMOUNT));
        } else {
          assert h != l.genesis;
          var amount := AmountOfSource(l, source);
          v := if amount.NeverEnds? then Stays else Goes(NO_HASH, Add128(result, amount.value));
        }
      case Change(previous, _) =>
        v := if h in blockInfos then Goes(NO_HASH, Add128(result, blockInfos[h].balance)) else Goes(previous, result);
    }

    /** `ledger::balance`: the walk of `balance_visitor` from block `h`. */
    method Balance(ghost l: Lattice, h: Hash) returns (r: Walk)
      requires Readable(blocks, blockInfos, l) && l.genesisAccount == genesisAccount && h in l.blocks
      ensures r == if Walkable(l, h) then Ends(l.place[h].balance) else NeverEnds
      decreases l.place[h].rank, 2
    {
      var current := h;
      var result: Amount := 0;
      assert !Reserved(l, h);
      while current != NO_HASH
        invariant current != NO_HASH ==>
                    && current in l.blocks && l.place[current].rank <= l.place[h].rank
                    && result + l.place[current].balance == l.place[h].balance
                    && (Walkable(l, h) <==> Walkable(l, current))
        invariant current == NO_HASH ==> result == l.place[h].balance && Walkable(l, h)
        decreases if current == NO_HASH then 0 else l.place[current].rank + 1
      {
        var v := VisitForBalance(l, current, result);
        if v.Stays? { return NeverEnds; }
        current, result := v.next, v.result;
      }
      return Ends(result);
    }

    /** `ledger::amount` of a send: what `amount_visitor` computes for it. */
    method AmountOfSource(ghost l: Lattice, s: Hash) returns (r: Walk)
      requires Readable(blocks, blockInfos, l) && l.genesisAccount == genesisAccount && s in l.blocks && l.blocks[s].Send?
      ensures r == if SendWalkable(l, s) then Ends(l.place[s].amount) else NeverEnds
      decreases l.place[s].rank, 0
    {
      assert Placed(l, s);
      var before := Balance(l, blocks[s].previous);
      if before.NeverEnds? { return NeverEnds; }
      return Ends(Sub128(before.value, blocks[s].balance));
    }

    /** `ledger::amount`: how far block `h` changed the balance of its account. At a SendV2 block the visitor sets nothing. */
    method AmountOfBlock(ghost l: Lattice, h: Hash) returns (r: Walk)
      requires Readable(blocks, blockInfos, l) && l.genesisAccount == genesisAccount && h in l.blocks
      ensures r == if l.blocks[h].SendV2? then Unset
                   else if !AmountWalkable(l, h) then NeverEnds
                   else if BalanceBelow(l, h) <= l.place[h].balance then Ends(l.place[h].balance - BalanceBelow(l, h))
                   else Ends(BalanceBelow(l, h) - l.place[h].balance)
    {
      assert Placed(l, h);
      match blocks[h]
      case Send(_, _, _) => r := AmountOfSource(l, h);
      case SendV2(_, _) => r := Unset;
      case Receive(_, source) => r := AmountOfSource(l, source);
      case Open(source, _, _) =>
        if source != genesisAccount {
          assert h != l.genesis;
          r := AmountOfSource(l, source);
        } else {
          assert Reserved(l, source);
          r := Ends(GENESIS_AMOUNT);
        }
      case Change(_, _) => r := Ends(0);
    }

    /** `ledger::representative`: the last block up to `h` that names a representative. */
    method Representative(ghost l: Lattice, h: Hash) returns (r: Hash)
      requires Readable(blocks, blockInfos, l) && h in l.blocks
      ensures r == l.place[h].repBlock
    {
      var current := h;
      assert Placed(l, current);
      while !blocks[current].NamesRepresentative()
        invariant current in l.blocks && l.place[current].repBlock == l.place[h].repBlock
        decreases l.place[current].height
      {
        assert Placed(l, current);
        current := blocks[current].previous;
      }
      assert Placed(l, current);
      return current;
    }

    /** `ledger::account`: the account of block `h`. */
    method AccountOfBlock(ghost l: Lattice, h: Hash) returns (a: Account)
      requires Traceable(successors, frontiers, blockInfos, l) && h in l.place
      ensures a == l.place[h].account
    {
      var hash := h;
      var successor: Hash := 1;
      while successor != NO_HASH && successor !in blockInfos
        invariant hash in l.place && l.place[hash].account == l.place[h].account
        invariant successor == 1 || successor == NO_HASH || successor == hash
        invariant successor == NO_HASH ==> hash in frontiers && frontiers[hash] == l.place[h].account
        decreases (set x | x in l.place && l.place[x].height > l.place[hash].height), successor != NO_HASH
      {
        assert Traced(successors, frontiers, blockInfos, l, hash);
        ghost var above := set x | x in l.place && l.place[x].height > l.place[hash].height;
        successor := if hash in successors then successors[hash] else NO_HASH;
        if successor != NO_HASH {
          hash := successor;
          assert hash in above;
        }
      }
      if successor == NO_HASH {
        a := frontiers[hash];
      } else {
        assert Traced(successors, frontiers, blockInfos, l, hash);
        a := blockInfos[successor].account;
      }
    }
  
    // -------------------------------------------------------------------------------------------------------
    // Updates
    // -------------------------------------------------------------------------------------------------------

    /** `genesis::initialize`: the tables with the genesis block alone. */
    constructor (h: Hash, account: Account)
      requires h != NO_HASH && h != 1 && h != account && account != BURN_ACCOUNT
      ensures Valid()
      ensures lattice.blocks == map[h := Open(account, account, account)] && lattice.genesis == h
      ensures accounts == map[account := AccountInfo(h, h, h, 0xFFFF_FFFF_FFFF_FFFF_FFFF_FFFF_FFFF_FFFF, 1)]
      ensures representation == map[account := 0xFFFF_FFFF_FFFF_FFFF_FFFF_FFFF_FFFF_FFFF]
    {
      var b := Open(account, account, account);
      genesisAccount := account;
      blocks := map[h := b];
      successors := map[h := NO_HASH];
      frontiers := map[h := account];
      accounts := map[account := AccountInfo(h, h, h, GENESIS_AMOUNT, 1)];
      pending := map[];
      blockInfos := map[];
      representation := map[account := GENESIS_AMOUNT];
      lattice := Lattice(map[h := b], map[h := Place(account, 1, GENESIS_AMOUNT, 0, h, 0)], map[], 1, h, account);
      new;
      GenesisValid(View(), lattice, h, account);
    }

    // -------------------------------------------------------------------------------------------------------
    // Processing blocks
    // -------------------------------------------------------------------------------------------------------

    /** `ledger::process`: answers as the lattice demands, adds an accepted block on top, and otherwise changes nothing. */
    method Process(h: Hash, b: Block, signers: set<Account>) returns (code: Code)
      requires Valid() && (CheckVerdict(lattice, h, b, signers) == Progress ==> !Reserved(lattice, h))
      modifies this
      ensures code == Verdict(old(lattice), h, b, signers)
      ensures code == Progress ==> Valid() && Fits(old(lattice), h, b) && lattice == Accepted(old(lattice), h, b)
      ensures code != Progress && code != NoReturn ==> View() == old(View()) && lattice == old(lattice)
    {
      code := Check(h, b, signers);
      if code == Progress {
        PassedFits(View(), lattice, h, b, signers);
        var ended := Apply(h, b);
        if !ended { code := NoReturn; }
      }
    }

    /** The updates of a block that passed the tests. */
    method Apply(h: Hash, b: Block) returns (ended: bool)
      requires Valid() && Fits(lattice, h, b)
      requires if b.Open? then b.account !in accounts else b.previous in frontiers
      modifies this
      ensures ended <==> (b.Change? ==> Walkable(old(lattice), b.previous))
      ensures ended ==> Valid() && lattice == Accepted(old(lattice), h, b)
    {
      ghost var t, l := View(), lattice;
      ApplicableFacts(t, l, h, b);
      ended := ApplyByKind(l, h, b);
      lattice := Accepted(l, h, b);
      assert ended ==> View() == Result(t, h, b, if b.Open? then 0 else l.place[b.previous].balance);
    }

    method ApplyByKind(ghost l: Lattice, h: Hash, b: Block) returns (ended: bool)
      requires Applicable(View(), b) && h != NO_HASH && (b.Open? ==> b.account !in accounts)
      requires !b.Open? ==> b.previous in l.place
      requires b.Change? ==>
                 Readable(blocks[h := b], blockInfos, l) && l.genesisAccount == genesisAccount && b.previous in l.blocks
      modifies this
      ensures ended <==> (b.Change? ==> Walkable(l, b.previous))
      ensures ended ==> View() == Result(old(View()), h, b, if b.Open? then 0 else l.place[b.previous].balance)
    {
      ended := true;
      match b
      case Send(_, _, _) => ApplySend(h, b);
      case SendV2(_, _) => ApplySendV2(h, b);
      case Change(_, _) => ended := ApplyChange(l, h, b);
      case Receive(_, _) => ApplyReceive(h, b);
      case Open(_, _, _) => ApplyOpen(h, b);
    }

    /** The tests that `ledger_processor` makes before it changes anything. */
    method Check(h: Hash, b: Block, signers: set<Account>) returns (code: Code)
      requires Valid()
      ensures code == CheckVerdict(lattice, h, b, signers)
    {
      match b
      case Send(previous, _, balance) =>
        code := CheckOnTop(h, previous, signers);
        if code == Progress && accounts[frontiers[previous]].balance < balance { code := Overspend; }
      case SendV2(previous, _) => code := CheckOnTop(h, previous, signers);
      case Change(previous, _) => code := CheckOnTop(h, previous, signers);
      case Receive(previous, source) => code := CheckReceive(h, previous, source, signers);
      case Open(source, _, account) => code := CheckOpen(h, source, account, signers);
    }

    /** The tests of a block that needs nothing but the block below it. */
    method CheckOnTop(h: Hash, previous: Hash, signers: set<Account>) returns (code: Code)
      requires Valid()
      ensures code == if h in lattice.blocks then Old
                      else if previous !in lattice.blocks then GapPrevious
                      else if !IsHead(lattice, previous) then Fork
                      else if lattice.place[previous].account !in signers then BadSignature
                      else Progress
      ensures code == Progress ==> EntryOf(View(), lattice, previous)
    {
      if h in blocks { return Old; }
      if previous !in blocks { return GapPrevious; }
      FrontierOf(View(), lattice, previous);
      if previous !in frontiers { return Fork; }
      var account := frontiers[previous];
      if account !in signers { return BadSignature; }
      FrontierEntry(View(), lattice, previous);
      return Progress;
    }

    method CheckReceive(h: Hash, previous: Hash, source: Hash, signers: set<Account>) returns (code: Code)
      requires Valid()
      ensures code == CheckVerdict(lattice, h, Receive(previous, source), signers)
    {
      if h in blocks { return Old; }
      if source !in blocks { return GapSource; }
      FrontierOf(View(), lattice, previous);
      if previous !in frontiers {
        if previous in blocks { return Fork; }
        return GapPrevious;
      }
      var account := frontiers[previous];
      FrontierEntry(View(), lattice, previous);
      if account !in signers { return BadSignature; }
      var info := accounts[account];
      if info.head != previous { return GapPrevious; }
      PendingKnows(View(), lattice, PendingKey(account, source));
      if PendingKey(account, source) !in pending { return Unreceivable; }
      return Progress;
    }

    method CheckOpen(h: Hash, source: Hash, account: Account, signers: set<Account>) returns (code: Code)
      requires Valid()
      ensures forall representative ::
                code == CheckVerdict(lattice, h, Open(source, representative, account), signers)
    {
      if h in blocks { return Old; }
      if source !in blocks { return GapSource; }
      if account !in signers { return BadSignature; }
      OpenedIsEntered(View(), lattice, account);
      if account in accounts { return Fork; }
      PendingKnows(View(), lattice, PendingKey(account, source));
      if PendingKey(account, source) !in pending { return Unreceivable; }
      if account == BURN_ACCOUNT { return OpenedBurnAccount; }
      return Progress;
    }

    /** The updates of an accepted send. */
    method ApplySend(h: Hash, b: Block)
      requires OnFrontier(View(), b) && b.Send? && b.balance <= accounts[frontiers[b.previous]].balance && h != NO_HASH
      modifies this
      ensures View() == SendResult(old(View()), h, b) && lattice == old(lattice)
    {
      var account := frontiers[b.previous];
      var info := accounts[account];
      var amount := info.balance - b.balance;
      representation := AddWeight(representation, RepresentativeIn(blocks, info.repBlock), Sub128(0, amount));
      successors := PutSuccessors(successors, h, b);
      blocks := blocks[h := b];
      ChangeLatest(account, h, info.repBlock, b.balance, info.blockCount + 1);
      pending := pending[PendingKey(b.destination, h) := PendingInfo(account, amount)];
      frontiers := frontiers - {b.previous};
      frontiers := frontiers[h := account];
    }

    /** The updates of an accepted send of the second kind, apart from the code that it stores for the account. */
    method ApplySendV2(h: Hash, b: Block)
      requires OnFrontier(View(), b) && b.SendV2? && h != NO_HASH
      modifies this
      ensures View() == SendV2Result(old(View()), h, b) && lattice == old(lattice)
    {
      var account := frontiers[b.previous];
      var info := accounts[account];
      successors := PutSuccessors(successors, h, b);
      blocks := blocks[h := b];
      ChangeLatest(account, h, info.repBlock, info.balance, info.blockCount + 1);
      frontiers := frontiers - {b.previous};
      frontiers := frontiers[h := account];
    }

    /** The updates of an accepted change, unless the balance walk among them does not end. */
    method ApplyChange(ghost l: Lattice, h: Hash, b: Block) returns (ended: bool)
      requires Readable(blocks[h := b], blockInfos, l) && l.genesisAccount == genesisAccount
      requires OnFrontier(View(), b) && b.Change? && h != NO_HASH && b.previous in l.blocks
      modifies this
      ensures ended <==> Walkable(l, b.previous)
      ensures ended ==> View() == ChangeResult(old(View()), h, b, l.place[b.previous].balance) && lattice == old(lattice)
    {
      successors := PutSuccessors(successors, h, b);
      blocks := blocks[h := b];
      var walk := Balance(l, b.previous);
      if walk.NeverEnds? { return false; }
      FinishChange(h, b, walk.value);
      return true;
    }

    /** The updates of an accepted change once the block is stored and its balance is known. */
    method FinishChange(h: Hash, b: Block, balance: Amount)
      requires OnFrontier(View(), b) && b.Change? && h != NO_HASH && h in blocks && blocks[h] == b
      modifies this
      ensures var info := old(accounts)[old(frontiers)[b.previous]];
              var a := old(frontiers)[b.previous];
              View() == old(View()).(
                representation := AddWeight(AddWeight(old(representation), b.representative, balance),
                                            RepresentativeIn(old(blocks), info.repBlock), Sub128(0, balance)),
                blockInfos := LatestInfos(old(blockInfos), a, h, info.balance, info.blockCount + 1),
                accounts := old(accounts)[a := AccountInfo(h, h, info.openBlock, info.balance, info.blockCount + 1)],
                frontiers := (old(frontiers) - {b.previous})[h := a])
      ensures lattice == old(lattice)
    {
      var account := frontiers[b.previous];
      var info := accounts[account];
      representation := AddWeight(representation, RepresentativeIn(blocks, h), balance);
      representation := AddWeight(representation, RepresentativeIn(blocks, info.repBlock), Sub128(0, balance));
      ChangeLatest(account, h, h, info.balance, info.blockCount + 1);
      frontiers := frontiers - {b.previous};
      frontiers := frontiers[h := account];
    }

    /** The updates of an accepted receive. */
    method ApplyReceive(h: Hash, b: Block)
      requires OnFrontier(View(), b) && b.Receive? && PendingKey(frontiers[b.previous], b.source) in pending && h != NO_HASH
      modifies this
      ensures View() == ReceiveResult(old(View()), h, b) && lattice == old(lattice)
    {
      var account := frontiers[b.previous];
      var info := accounts[account];
      var key := PendingKey(account, b.source);
      var amount := pending[key].amount;
      var newBalance := Add128(info.balance, amount);
      pending := pending - {key};
      successors := PutSuccessors(successors, h, b);
      blocks := blocks[h := b];
      ChangeLatest(account, h, info.repBlock, newBalance, info.blockCount + 1);
      representation := AddWeight(representation, RepresentativeIn(blocks, info.repBlock), amount);
      frontiers := frontiers - {b.previous};
      frontiers := frontiers[h := account];
    }

    /** The updates of an accepted open. */
    method ApplyOpen(h: Hash, b: Block)
      requires b.Open? && b.account !in accounts && PendingKey(b.account, b.source) in pending && h != NO_HASH
      modifies this
      ensures View() == OpenResult(old(View()), h, b) && lattice == old(lattice)
    {
      var key := PendingKey(b.account, b.source);
      var amount := pending[key].amount;
      pending := pending - {key};
      successors := PutSuccessors(successors, h, b);
      blocks := blocks[h := b];
      ChangeLatest(b.account, h, h, amount, 0 + 1);
      representation := AddWeight(representation, RepresentativeIn(blocks, h), amount);
      frontiers := frontiers[h := b.account];
    }

    // -------------------------------------------------------------------------------------------------------
    // Rolling back
    // -------------------------------------------------------------------------------------------------------

    /** `rollback_visitor` at block `h`, once a send that it undoes is pending. The visitor does nothing at a SendV2 block,
        so that the loop around it visits the block forever. */
    method Undo(h: Hash) returns (ended: bool)
      requires Valid() && Removable(View(), lattice, h)
      modifies this
      ensures ended <==> Reversible(old(lattice), h)
      ensures ended ==> Valid() && lattice == Remove(old(lattice), {h})
    {
      ghost var l := lattice;
      UndoIsReady(View(), l, h);
      ended := UndoByKind(l, h);
      lattice := Remove(l, {h});
    }

    method UndoByKind(ghost l: Lattice, h: Hash) returns (ended: bool)
      requires UndoReady(View(), l, h) && l.genesisAccount == genesisAccount
      modifies this
      ensures ended <==> Reversible(l, h)
      ensures ended ==> View() == UndoResult(old(View()), l, h)
    {
      match blocks[h]
      case Send(previous, destination, _) => ended := UndoSend(l, h, previous, destination);
      case SendV2(_, _) => ended := false;
      case Receive(previous, source) => ended := UndoReceive(l, h, previous, source);
      case Open(source, _, _) => ended := UndoOpen(l, h, source);
      case Change(previous, _) => ended := UndoChange(l, h, previous);
    }

    method UndoSend(ghost l: Lattice, h: Hash, previous: Hash, destination: Account) returns (ended: bool)
      requires UndoReady(View(), l, h) && l.genesisAccount == genesisAccount
      requires blocks[h].Send? && blocks[h].previous == previous && blocks[h].destination == destination
      modifies this
      ensures ended <==> Reversible(l, h)
      ensures ended ==> View() == UndoResult(old(View()), l, h)
    {
      BelowFacts(View(), l, h);
      var key := PendingKey(destination, h);
      var info := pending[key];
      var entry := accounts[info.source];
      pending := pending - {key};
      var repBlock := Representative(l, h);
      representation := AddWeight(representation, RepresentativeIn(blocks, repBlock), info.amount);
      var walk := Balance(l, previous);
      if walk.NeverEnds? { return false; }
      Retract(h, previous, info.source, entry.repBlock, walk.value);
      return true;
    }

    method UndoReceive(ghost l: Lattice, h: Hash, previous: Hash, source: Hash) returns (ended: bool)
      requires UndoReady(View(), l, h) && l.genesisAccount == genesisAccount
      requires blocks[h].Receive? && blocks[h].previous == previous && blocks[h].source == source
      modifies this
      ensures ended <==> Reversible(l, h)
      ensures ended ==> View() == UndoResult(old(View()), l, h)
    {
      BelowFacts(View(), l, h);
      SourceFacts(View(), l, h);
      var repBlock := Representative(l, previous);
      var amount := AmountOfSource(l, source);
      if amount.NeverEnds? { return false; }
      var account := AccountOfBlock(l, h);
      var oldRepBlock := Representative(l, h);
      representation := AddWeight(representation, RepresentativeIn(blocks, oldRepBlock), Sub128(0, amount.value));
      var walk := Balance(l, previous);
      if walk.NeverEnds? { return false; }
      RetractReceive(l, h, previous, account, repBlock, walk.value, source, amount.value);
      return true;
    }

    method UndoOpen(ghost l: Lattice, h: Hash, source: Hash) returns (ended: bool)
      requires UndoReady(View(), l, h) && l.genesisAccount == genesisAccount
      requires blocks[h].Open? && blocks[h].source == source
      modifies this
      ensures ended <==> Reversible(l, h)
      ensures ended ==> View() == UndoResult(old(View()), l, h)
    {
      SourceFacts(View(), l, h);
      var amount := AmountOfSource(l, source);
      if amount.NeverEnds? { return false; }
      var account := AccountOfBlock(l, h);
      var repBlock := Representative(l, h);
      representation := AddWeight(representation, RepresentativeIn(blocks, repBlock), Sub128(0, amount.value));
      ChangeLatest(account, NO_HASH, NO_HASH, 0, 0);
      BlockDel(h);
      var sender := AccountOfBlock(l, source);
      pending := pending[PendingKey(account, source) := PendingInfo(sender, amount.value)];
      frontiers := frontiers - {h};
      return true;
    }

    method UndoChange(ghost l: Lattice, h: Hash, previous: Hash) returns (ended: bool)
      requires UndoReady(View(), l, h) && l.genesisAccount == genesisAccount
      requires blocks[h].Change? && blocks[h].previous == previous
      modifies this
      ensures ended <==> Reversible(l, h)
      ensures ended ==> View() == UndoResult(old(View()), l, h)
    {
      BelowFacts(View(), l, h);
      var repBlock := Representative(l, previous);
      var account := AccountOfBlock(l, previous);
      var entry := accounts[account];
      var walk := Balance(l, previous);
      if walk.NeverEnds? { return false; }
      representation := AddWeight(representation, RepresentativeIn(blocks, repBlock), walk.value);
      representation := AddWeight(representation, RepresentativeIn(blocks, h), Sub128(0, walk.value));
      // The source deletes the block before it rewrites the entry; the two are in different tables.
      Retract(h, previous, account, repBlock, entry.balance);
      return true;
    }

    /** `rollback_visitor` at the last block `x` of a chain. At the genesis block it looks up the account of the source,
        which is no block, and fails an assertion of `ledger::account`. */
    method Visit(x: Hash) returns (ending: Ending)
      requires Valid() && x in frontiers
      modifies this
      ensures ending == if x == old(lattice).genesis then Aborted
                        else if AllReversible(old(lattice), x) then Returned
                        else Endless
      ensures ending == Returned ==> Valid() && lattice == Remove(old(lattice), Dependents(old(lattice), x))
      decreases Later(lattice, x), 1
    {
      ghost var l0 := lattice;
      OnlyGenesisUnfunded(View(), l0, x);
      if blocks[x].Open? && blocks[x].source !in blocks { return Aborted; }
      ghost var gone;
      var ended;
      ended, gone := MakePending(x);
      if ended {
        ghost var l := lattice;
        AloneOnTop(View(), l, x);
        ended := Undo(x);
        LastOfVisit(l0, l, gone, x);
      }
      return if ended then Returned else Endless;
    }

    /** At a send that has been collected the visitor first rolls back the receiving account, from its last block down,
        until the send is pending again. */
    method MakePending(x: Hash) returns (done: bool, ghost gone: set<Hash>)
      requires Valid() && x in frontiers && x != lattice.genesis
      modifies this
      ensures !done ==> !AllReversible(old(lattice), x)
      ensures done ==> Visiting(View(), old(lattice), lattice, gone, x) && genesisAccount == lattice.genesisAccount
      ensures done && blocks[x].Send? ==> PendingKey(blocks[x].destination, x) in pending
      decreases Later(lattice, x), 0
    {
      ghost var l0 := lattice;
      gone := {};
      VisitStarts(View(), l0, x);
      if blocks[x].Send? {
        var destination := blocks[x].destination;
        while PendingKey(destination, x) !in pending
          invariant Visiting(View(), l0, lattice, gone, x) && genesisAccount == lattice.genesisAccount
          decreases |lattice.blocks|
        {
          ghost var l := lattice;
          ReceiverOnTop(View(), l0, l, gone, x);
          var y := accounts[destination].head;
          var ending := Rollback(y);
          if ending != Returned {
            done := false;
            PartlyStuck(l0, l, gone, x, y);
            return;
          }
          VisitGoesOn(View(), l0, l, gone, x, y);
          gone := gone + Dependents(l, y);
        }
      }
      done := true;
    }

    /** `ledger::rollback`: it returns exactly when every block that depends on `h` can be undone, and then it has taken
        off exactly these blocks. The genesis block itself cannot be undone. */
    method Rollback(h: Hash) returns (ending: Ending)
      requires Valid() && h in lattice.blocks
      modifies this
      ensures ending == if !AllReversible(old(lattice), h) then Endless
                        else if h == old(lattice).genesis then Aborted
                        else Returned
      ensures ending == Returned ==> Valid() && lattice == Remove(old(lattice), Dependents(old(lattice), h))
      decreases Later(lattice, h), 2
    {
      ghost var l0 := lattice;
      ghost var gone: set<Hash> := {};
      RemoveNothing(l0);
      TablesTraceable(View(), l0);
      var account := AccountOfBlock(l0, h);
      while h in blocks
        invariant Valid() && Partly(l0, lattice, gone, h)
        decreases |lattice.blocks|
      {
        ghost var l := lattice;
        TopOfChain(View(), l0, l, gone, h);
        var x := accounts[account].head;
        ending := Visit(x);
        if ending == Endless {
          PartlyStuck(l0, l, gone, h, x);
          return;
        }
        if ending == Aborted {
          OnlyGenesisLeft(l0, l, gone);
          return;
        }
        PartlyMore(l0, l, gone, h, x);
        gone := gone + Dependents(l, x);
      }
      PartlyAll(l0, lattice, gone, h);
      ending := Returned;
    }

    /** The entry of the account goes back to the block below, and the block is deleted and uncovered. */
    method Retract(h: Hash, previous: Hash, a: Account, repBlock: Hash, balance: Amount)
      requires a in accounts && accounts[a].blockCount > 0 && previous in blocks && previous != h
      modifies this`accounts, this`blockInfos, this`blocks, this`successors, this`frontiers
      ensures View() == PopResult(old(View()), h, previous, a, repBlock, balance, pending, representation)
    {
      var blockCount := accounts[a].blockCount;
      ChangeLatest(a, previous, repBlock, balance, blockCount - 1);
      BlockDel(h);
      Uncover(h, previous, a, blockCount);
    }

    /** As Retract; in between, the collected send becomes pending again, once its sender has been looked up. */
    method RetractReceive(ghost l: Lattice, h: Hash, previous: Hash, a: Account, repBlock: Hash, balance: Amount,
                          source: Hash, amount: Amount)
      requires a in accounts && accounts[a].blockCount > 0 && previous in blocks && previous != h && source in l.place
      requires Traceable(successors - {h}, frontiers, LatestInfos(blockInfos, a, previous, balance, accounts[a].blockCount - 1), l)
      modifies this`accounts, this`blockInfos, this`blocks, this`successors, this`frontiers, this`pending
      ensures View() == PopResult(old(View()), h, previous, a, repBlock, balance,
                                  old(pending)[PendingKey(a, source) := PendingInfo(l.place[source].account, amount)],
                                  representation)
    {
      var blockCount := accounts[a].blockCount;
      ChangeLatest(a, previous, repBlock, balance, blockCount - 1);
      BlockDel(h);
      var sender := AccountOfBlock(l, source);
      pending := pending[PendingKey(a, source) := PendingInfo(sender, amount)];
      Uncover(h, previous, a, blockCount);
    }

    /** `ledger::change_latest`: the account now ends at `h`, opened by the block it was opened by before or else by `h`;
        without a block `h` the account is gone. The block has an info exactly if its height is a multiple of 32 or it had
        one. Nothing else changes. */
    method ChangeLatest(a: Account, h: Hash, repBlock: Hash, balance: Amount, blockCount: nat)
      modifies this`accounts, this`blockInfos
      ensures a in accounts <==> h != NO_HASH
      ensures a in accounts ==>
                && accounts[a].head == h && accounts[a].blockCount == blockCount
                && accounts[a].repBlock == repBlock && accounts[a].balance == balance
                && accounts[a].openBlock == if a in old(accounts) then old(accounts)[a].openBlock else h
      ensures accounts - {a} == old(accounts) - {a}
      ensures h in blockInfos <==> (h != NO_HASH && blockCount % 32 == 0) || h in old(blockInfos)
      ensures h != NO_HASH && blockCount % 32 == 0 ==> blockInfos[h] == BlockInfo(a, balance)
      ensures h == NO_HASH || blockCount % 32 != 0 ==> blockInfos == old(blockInfos)
      ensures blockInfos - {h} == old(blockInfos) - {h}
      ensures accounts == LatestAccounts(old(accounts), a, h, repBlock, balance, blockCount)
      ensures blockInfos == LatestInfos(old(blockInfos), a, h, balance, blockCount)
    {
      var openBlock := if a in accounts then accounts[a].openBlock else h;
      if h != NO_HASH {
        accounts := accounts[a := AccountInfo(h, repBlock, openBlock, balance, blockCount)];
        if blockCount % BLOCK_INFO_MAX == 0 {
          blockInfos := blockInfos[h := BlockInfo(a, balance)];
        }
      } else {
        accounts := accounts - {a};
      }
    }

    method BlockDel(h: Hash)
      modifies this`blocks, this`successors
      ensures blocks == old(blocks) - {h} && successors == old(successors) - {h}
    {
      blocks, successors := blocks - {h}, successors - {h};
    }

    /** The last steps at every block but open: the frontier, the successor of the block below, and the info. */
    method Uncover(h: Hash, previous: Hash, a: Account, blockCount: nat)
      requires previous in blocks
      modifies this`frontiers, this`successors, this`blockInfos
      ensures frontiers == (old(frontiers) - {h})[previous := a]
      ensures successors == PutSuccessors(old(successors), previous, blocks[previous])
      ensures blockInfos == if blockCount % BLOCK_INFO_MAX == 0 then old(blockInfos) - {h} else old(blockInfos)
    {
      frontiers := frontiers - {h};
      frontiers := frontiers[previous := a];
      // block_successor_clear puts the block below again, without a successor.
      successors := PutSuccessors(successors, previous, blocks[previous]);
      if blockCount % BLOCK_INFO_MAX == 0 {
        blockInfos := blockInfos - {h};
      }
    }
  }

  /** How much time has passed since block `h` was added. */
  ghost function Later(l: Lattice, h: Hash): nat {
    if h in l.place && l.place[h].rank <= l.clock then l.clock - l.place[h].rank else 0
  }

  lemma FewerBlocks(l: Lattice, y: Hash)
    requires Chains(l) && y in l.blocks
    ensures |Remove(l, Dependents(l, y)).blocks| < |l.blocks|
  {
    var rest := Remove(l, Dependents(l, y)).blocks;
    assert y in Dependents(l, y);
    assert rest.Keys <= l.blocks.Keys - {y};
    FewerKeys(rest.Keys, l.blocks.Keys - {y});
  }

  lemma {:induction false} FewerKeys(a: set<Hash>, b: set<Hash>)
    requires a <= b
    ensures |a| <= |b|
    decreases b
  {
    if a != {} {
      var x :| x in a;
      FewerKeys(a - {x}, b - {x});
    }
  }

  /** The lattice `l` is what is left of `l0` while `x`, last of its chain, waits to be undone. */
  ghost predicate Visiting(t: Tables, l0: Lattice, l: Lattice, gone: set<Hash>, x: Hash) {
    && Store.Valid(t, l)
    && Partly(l0, l, gone, x)
    && x in t.frontiers && x in l.blocks && x != l.genesis && IsHead(l, x)
    && t.blocks[x] == l0.blocks[x]
  }

  lemma VisitStarts(t: Tables, l: Lattice, x: Hash)
    requires Store.Valid(t, l) && x in t.frontiers && x != l.genesis
    ensures Visiting(t, l, l, {}, x)
  {
    RemoveNothing(l);
    FrontierOf(t, l, x);
  }

  /** If the send `x` is not pending then the account that collected it has a last block, which depends on `x` and came
      later. */
  lemma ReceiverOnTop(t: Tables, l0: Lattice, l: Lattice, gone: set<Hash>, x: Hash)
    requires Visiting(t, l0, l, gone, x) && l0.blocks[x].Send?
    requires PendingKey(l0.blocks[x].destination, x) !in t.pending
    ensures l0.blocks[x].destination in t.accounts
    ensures var y := t.accounts[l0.blocks[x].destination].head;
            && y in l.blocks && y != l.genesis
            && DependsOn(l, y, x) && x !in Dependents(l, y)
            && Later(l, y) < Later(l0, x)
  {
    var destination := l.blocks[x].destination;
    PendingKnows(t, l, PendingKey(destination, x));
    assert Collected(l, x);
    var r := l.receipts[x];
    assert Placed(l, r) && UnderHead(t.accounts, l.place[r]);
    HeadOf(l, t.accounts, destination);
    var y := t.accounts[destination].head;
    assert AccountOk(l, destination, t.accounts[destination]);
    ChainDepends(l, y, r);
    assert DependsOn(l, r, x);
    DependsTransitive(l, y, r, x);
    DependsLater(l, y, r);
    DependsLater(l, y, x);
    assert Placed(l, y) && Placed(l, x);
    if DependsOn(l, x, y) { DependsLater(l, x, y); }
  }

  /** After the last block `y` of the receiving account is gone with its dependents, `x` still waits. */
  lemma VisitGoesOn(t: Tables, l0: Lattice, l: Lattice, gone: set<Hash>, x: Hash, y: Hash)
    requires Partly(l0, l, gone, x) && y in l.blocks && DependsOn(l, y, x) && x !in Dependents(l, y) && AllReversible(l, y)
    requires x in l.blocks && IsHead(l, x) && x != l.genesis
    requires Store.Valid(t, Remove(l, Dependents(l, y)))
    ensures Visiting(t, l0, Remove(l, Dependents(l, y)), gone + Dependents(l, y), x)
    ensures |Remove(l, Dependents(l, y)).blocks| < |l.blocks|
  {
    PartlyMore(l0, l, gone, x, y);
    FewerBlocks(l, y);
    FrontierOf(t, Remove(l, Dependents(l, y)), x);
  }

  /** The last step of a visit. */
  lemma LastOfVisit(l0: Lattice, l: Lattice, gone: set<Hash>, x: Hash)
    requires Partly(l0, l, gone, x) && x in l.blocks && x != l.genesis
    requires Dependents(l, x) == {x} && Chains(Remove(l, {x}))
    ensures Reversible(l, x) <==> AllReversible(l0, x)
    ensures Reversible(l, x) ==> Remove(l, {x}) == Remove(l0, Dependents(l0, x))
  {
    if Reversible(l, x) {
      PartlyMore(l0, l, gone, x, x);
      PartlyAll(l0, Remove(l, {x}), gone + {x}, x);
    } else {
      PartlyStuck(l0, l, gone, x, x);
    }
  }

  /** The genesis block is the one open block without a source in the store. */
  lemma OnlyGenesisUnfunded(t: Tables, l: Lattice, x: Hash)
    requires Store.Valid(t, l) && x in t.frontiers
    ensures x in l.blocks && x in t.blocks
    ensures x == l.genesis <==> t.blocks[x].Open? && t.blocks[x].source !in t.blocks
  {
    FrontierOf(t, l, x);
    assert Placed(l, x) && Reserved(l, l.genesisAccount);
  }

  /** When the genesis block is the last of its chain, all that depended on it has been taken off. */
  lemma OnlyGenesisLeft(l0: Lattice, l: Lattice, gone: set<Hash>)
    requires Partly(l0, l, gone, l0.genesis) && Receipts(l) && IsHead(l, l.genesis)
    ensures AllReversible(l0, l0.genesis)
  {
    forall s | s in l.receipts
      ensures s != l.genesis
    {
      assert Collected(l, s);
    }
    forall x | x in Dependents(l0, l0.genesis) && x != l0.genesis
      ensures x in gone
    {
      if x !in gone {
        RemoveKeepsDependence(l0, gone, x, l0.genesis);
        OnlyHeadDepends(l, l.genesis, x);
      }
    }
  }

  lemma EndOfChain(t: Tables, l: Lattice, h: Hash)
    requires Indexed(t, l) && h in l.blocks
    ensures var a := l.place[h].account;
            && a in t.accounts
            && var x := t.accounts[a].head;
               && x in l.place && x in t.frontiers && IsHead(l, x)
               && l.place[x].account == a && l.place[h].height <= l.place[x].height
  {
    var a := l.place[h].account;
    assert UnderHead(t.accounts, l.place[h]);
    HeadOf(l, t.accounts, a);
    assert AccountOk(l, a, t.accounts[a]) && HeadListed(t.frontiers, t.accounts, a);
  }

  /** The last block of the chain of `h` depends on `h`; taking it off leaves fewer blocks. */
  lemma TopOfChain(t: Tables, l0: Lattice, l: Lattice, gone: set<Hash>, h: Hash)
    requires Store.Valid(t, l) && Partly(l0, l, gone, h) && h in l.blocks
    ensures l0.place[h].account in t.accounts
    ensures var x := t.accounts[l0.place[h].account].head;
            && x in l.blocks && x in t.frontiers && (x == l.genesis ==> h == l.genesis && IsHead(l, x))
            && DependsOn(l, x, h)
            && Later(l, x) <= Later(l0, h)
            && |Remove(l, Dependents(l, x)).blocks| < |l.blocks|
  {
    EndOfChain(t, l, h);
    var x := t.accounts[l.place[h].account].head;
    ChainDepends(l, x, h);
    DependsLater(l, x, h);
    assert Placed(l, x);
    FewerBlocks(l, x);
  }

  /** A last block that is not a collected send can be taken off, and nothing else depends on it. */
  lemma AloneOnTop(t: Tables, l: Lattice, x: Hash)
    requires Store.Valid(t, l) && x in t.frontiers && x != l.genesis
    requires x in l.blocks && l.blocks[x].Send? ==> PendingKey(l.blocks[x].destination, x) in t.pending
    ensures Removable(t, l, x) && Dependents(l, x) == {x} && DependsOn(l, x, x)
    ensures Chains(Remove(l, {x}))
    ensures AllReversible(l, x) <==> Reversible(l, x)
  {
    FrontierOf(t, l, x);
    assert Placed(l, x);
    if l.blocks[x].Send? {
      PendingKnows(t, l, PendingKey(l.blocks[x].destination, x));
    } else {
      forall s | s in l.receipts
        ensures s in l.blocks && l.blocks[s].Send?
      {
        assert Collected(l, s);
      }
    }
    RemoveHead(l, x);
    forall y | y in Dependents(l, x)
      ensures y == x
    {
      OnlyHeadDepends(l, x, y);
    }
    assert x in Dependents(l, x);
  }

  /** What undoing the last block `h` of a chain finds in the tables. */
  ghost predicate UndoReady(t: Tables, l: Lattice, h: Hash) {
    && Removable(t, l, h)
    && Readable(t.blocks, t.blockInfos, l)
    && EntryOf(t, l, h)
    && t.accounts[l.place[h].account].blockCount > 0
    && Traceable(t.successors, t.frontiers, t.blockInfos, l)
    && Traceable(t.successors - {h}, t.frontiers, t.blockInfos, l)
    && (l.blocks[h].Send? ==>
          && PendingKey(l.blocks[h].destination, h) in t.pending
          && t.pending[PendingKey(l.blocks[h].destination, h)] == PendingInfo(l.place[h].account, l.place[h].amount))
  }

  /** The tables after block `h` has been undone. */
  ghost function UndoResult(t: Tables, l: Lattice, h: Hash): Tables
    requires UndoReady(t, l, h)
  {
    var a := l.place[h].account;
    if l.blocks[h].Open? then
      CloseResult(t, h, a, ReducedPending(t.pending, l, h), ReducedWeights(t, l, h))
    else
      var p := l.place[l.blocks[h].previous];
      PopResult(t, h, l.blocks[h].previous, a, p.repBlock, p.balance, ReducedPending(t.pending, l, h), ReducedWeights(t, l, h))
  }

  lemma UndoIsReady(t: Tables, l: Lattice, h: Hash)
    requires Store.Valid(t, l) && Removable(t, l, h)
    ensures UndoReady(t, l, h)
    ensures Reversible(l, h) ==> Store.Valid(UndoResult(t, l, h), Remove(l, {h}))
  {
    FrontierEntry(t, l, h);
    FrontierOf(t, l, h);
    assert Placed(l, h);
    assert Reserved(l, l.genesisAccount);
    TablesTraceable(t, l);
    TraceableWithout(t, l, h);
    if l.blocks[h].Send? {
      PendingKnows(t, l, PendingKey(l.blocks[h].destination, h));
    }
    if Reversible(l, h) {
      UndoResultValid(t, l, h);
    }
  }

  lemma UndoResultValid(t: Tables, l: Lattice, h: Hash)
    requires Store.Valid(t, l) && UndoReady(t, l, h) && !l.blocks[h].SendV2?
    ensures Store.Valid(UndoResult(t, l, h), Remove(l, {h}))
  {
    if l.blocks[h].Open? {
      CloseResultValid(t, l, h);
    } else {
      assert Placed(l, h);
      PopResultValid(t, l, h);
    }
  }

  /** The block below: its info is already in the table, so that storing it again changes nothing. */
  lemma BelowFacts(t: Tables, l: Lattice, h: Hash)
    requires UndoReady(t, l, h) && !l.blocks[h].Open?
    ensures var previous := l.blocks[h].previous;
            var p := l.place[previous];
            && previous in l.blocks && previous in t.blocks && previous != h && previous != NO_HASH
            && p.account == l.place[h].account && p.height + 1 == t.accounts[p.account].blockCount
            && LatestInfos(t.blockInfos, p.account, previous, p.balance, p.height) == t.blockInfos
    ensures l.place[h].repBlock == if l.blocks[h].Change? then h else l.place[l.blocks[h].previous].repBlock
    ensures l.blocks[h].Change? ==> l.place[h].balance == l.place[l.blocks[h].previous].balance
  {
    assert Placed(l, h);
    var previous := l.blocks[h].previous;
    assert BlockInfoOk(t.blockInfos, previous, l.place[previous]);
    assert !Reserved(l, previous);
  }

  /** The send that block `h` collected. */
  lemma SourceFacts(t: Tables, l: Lattice, h: Hash)
    requires UndoReady(t, l, h) && l.blocks[h].Collects()
    ensures l.blocks[h].source in l.blocks && l.blocks[l.blocks[h].source].Send?
    ensures l.blocks[h].Open? ==> l.place[h].repBlock == h
  {
    assert Placed(l, h);
  }

  /** The answer of the tests alone: a change passes them although its balance walk may not end. */
  ghost function CheckVerdict(l: Lattice, h: Hash, b: Block, signers: set<Account>): Code
    requires Chains(l)
  {
    var verdict := Verdict(l, h, b, signers);
    if verdict == NoReturn then Progress else verdict
  }

  /** A block that passed the tests fits on top of the lattice, in particular without wrapping around a balance. */
  lemma PassedFits(t: Tables, l: Lattice, h: Hash, b: Block, signers: set<Account>)
    requires Store.Valid(t, l) && !Reserved(l, h) && CheckVerdict(l, h, b, signers) == Progress
    ensures Fits(l, h, b)
    ensures !b.Open? ==> b.previous in t.frontiers
    ensures b.Open? ==> b.account !in t.accounts
  {
    if b.Open? {
      OpenedIsEntered(t, l, b.account);
    } else {
      FrontierOf(t, l, b.previous);
      if b.Receive? {
        PendingKnows(t, l, PendingKey(l.place[b.previous].account, b.source));
        ReceiveFits(t, l, h, b);
      }
    }
  }

  lemma ApplicableFacts(t: Tables, l: Lattice, h: Hash, b: Block)
    requires Store.Valid(t, l) && Fits(l, h, b)
    requires if b.Open? then b.account !in t.accounts else b.previous in t.frontiers
    ensures Applicable(t, b) && h != NO_HASH
    ensures !b.Open? ==> b.previous in l.place && b.previous in l.blocks
    ensures b.Change? ==> Readable(t.blocks[h := b], t.blockInfos, l)
    ensures Store.Valid(Result(t, h, b, if b.Open? then 0 else l.place[b.previous].balance), Accepted(l, h, b))
  {
    ResultValid(t, l, h, b);
    StillReadable(t, l, h, b);
  }

  /** A new block in the store does not get into the way of the walks. */
  lemma StillReadable(t: Tables, l: Lattice, h: Hash, b: Block)
    requires Indexed(t, l) && h !in l.blocks && !Reserved(l, h)
    ensures Readable(t.blocks[h := b], t.blockInfos, l)
  {
    assert !Reserved(l, h);
    assert l.genesisAccount in l.blocks ==> !Reserved(l, l.genesisAccount);
  }

  lemma GenesisValid(t: Tables, l: Lattice, h: Hash, account: Account)
    requires h != NO_HASH && h != 1 && h != account && account != BURN_ACCOUNT
    requires l == Lattice(map[h := Open(account, account, account)], map[h := Place(account, 1, GENESIS_AMOUNT, 0, h, 0)],
                          map[], 1, h, account)
    requires t == Tables(l.blocks, map[h := NO_HASH], map[h := account],
                         map[account := AccountInfo(h, h, h, GENESIS_AMOUNT, 1)], map[], map[],
                         map[account := GENESIS_AMOUNT])
    ensures Store.Valid(t, l)
  {
    var hs := Holdings(t.accounts, t.blocks);
    var empty: map<Account, Holding> := map[];
    assert hs == empty[account := Holding(GENESIS_AMOUNT, account)];
    SumPut(empty, BalanceOf(), account, hs[account]);
    forall r
      ensures Weight(t.representation, r) == Sum(hs, VotesFor(r))
    {
      SumPut(empty, VotesFor(r), account, hs[account]);
    }
  }
}
