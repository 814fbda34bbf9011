/**
 The tables of a node's block store in rai/secure.hpp and how they follow from the lattice. A lattice determines all of
 them, except that a representative without weight may or may not have an entry.
 */
module Store {
  import opened Lattice
  import opened Sums

  datatype AccountInfo = AccountInfo(head: Hash, repBlock: Hash, openBlock: Hash, balance: Amount, blockCount: nat)
  datatype PendingKey = PendingKey(account: Account, hash: Hash)
  datatype PendingInfo = PendingInfo(source: Account, amount: Amount)
  datatype BlockInfo = BlockInfo(account: Account, balance: Amount)

  /** One field per table; `successors` is the hash that is stored at the end of each block's entry. */
  datatype Tables = Tables(
    blocks: map<Hash, Block>,
    successors: map<Hash, Hash>,
    frontiers: map<Hash, Account>,
    accounts: map<Account, AccountInfo>,
    pending: map<PendingKey, PendingInfo>,
    blockInfos: map<Hash, BlockInfo>,
    representation: map<Account, Amount>)

  // ---------------------------------------------------------------------------------------------------------
  // The indexes: accounts, frontiers, successors and block infos
  // ---------------------------------------------------------------------------------------------------------

  /** The entry of account `a` describes the last block of its chain. */
  ghost predicate AccountOk(l: Lattice, a: Account, info: AccountInfo) {
    && info.head in l.place
    && l.place[info.head].account == a
    && l.place[info.head].height == info.blockCount
    && l.place[info.head].balance == info.balance
    && l.place[info.head].repBlock == info.repBlock
    && info.openBlock in l.place
    && l.place[info.openBlock].account == a
    && l.place[info.openBlock].height == 1
  }

  /** The account of block `h` has an entry, at least as high as `h`. */
  ghost predicate UnderHead(accounts: map<Account, AccountInfo>, m: Place) {
    m.account in accounts && m.height <= accounts[m.account].blockCount
  }

  ghost predicate AccountsOk(accounts: map<Account, AccountInfo>, l: Lattice) {
    && (forall a {:trigger AccountOk(l, a, accounts[a])} | a in accounts :: AccountOk(l, a, accounts[a]))
    && (forall h {:trigger UnderHead(accounts, l.place[h])} | h in l.place :: UnderHead(accounts, l.place[h]))
  }

  /** The frontiers are the heads. */
  ghost predicate FrontiersOk(frontiers: map<Hash, Account>, accounts: map<Account, AccountInfo>) {
    && (forall h {:trigger FrontierOk(frontiers, accounts, h)} | h in frontiers :: FrontierOk(frontiers, accounts, h))
    && (forall a {:trigger HeadListed(frontiers, accounts, a)} | a in accounts :: HeadListed(frontiers, accounts, a))
  }

  ghost predicate FrontierOk(frontiers: map<Hash, Account>, accounts: map<Account, AccountInfo>, h: Hash) {
    h in frontiers ==> frontiers[h] in accounts && accounts[frontiers[h]].head == h
  }

  ghost predicate HeadListed(frontiers: map<Hash, Account>, accounts: map<Account, AccountInfo>, a: Account) {
    a in accounts ==> accounts[a].head in frontiers && frontiers[accounts[a].head] == a
  }

  /** The successor of `h` is the block above it, and none for a head. */
  ghost predicate SuccessorOk(l: Lattice, h: Hash, successor: Hash) {
    if successor == NO_HASH then IsHead(l, h)
    else successor in l.blocks && !l.blocks[successor].Open? && l.blocks[successor].previous == h
  }

  ghost predicate SuccessorsOk(successors: map<Hash, Hash>, l: Lattice) {
    && successors.Keys == l.blocks.Keys
    && (forall h {:trigger SuccessorOk(l, h, successors[h])} | h in successors ::
          SuccessorOk(l, h, successors[h]))
  }

  /** Every block at a height that is a multiple of 32 has an info, with its account and balance. */
  ghost predicate BlockInfosOk(blockInfos: map<Hash, BlockInfo>, l: Lattice) {
    && (forall h | h in blockInfos :: h in l.place)
    && (forall h {:trigger BlockInfoOk(blockInfos, h, l.place[h])} | h in l.place :: BlockInfoOk(blockInfos, h, l.place[h]))
  }

  ghost predicate BlockInfoOk(blockInfos: map<Hash, BlockInfo>, h: Hash, m: Place) {
    if m.height % BLOCK_INFO_MAX == 0 then h in blockInfos && blockInfos[h] == BlockInfo(m.account, m.balance)
    else h !in blockInfos
  }

  ghost predicate Indexed(t: Tables, l: Lattice) {
    && t.blocks == l.blocks
    && Chains(l)
    && AccountsOk(t.accounts, l)
    && FrontiersOk(t.frontiers, t.accounts)
    && SuccessorsOk(t.successors, l)
    && BlockInfosOk(t.blockInfos, l)
  }

  /** The tables after block `b` has been put on top of the chain of `a`. */
  function Pushed(t: Tables, h: Hash, b: Block, a: Account, info: AccountInfo): Tables
    requires !b.Open?
  {
    t.(blocks := t.blocks[h := b],
       successors := t.successors[h := NO_HASH][b.previous := h],
       frontiers := (t.frontiers - {b.previous})[h := a],
       accounts := t.accounts[a := info],
       blockInfos := if info.blockCount % BLOCK_INFO_MAX == 0 then t.blockInfos[h := BlockInfo(a, info.balance)]
                     else t.blockInfos)
  }

  /** The tables after block `b` has opened account `a`. */
  function Opened(t: Tables, h: Hash, b: Block, a: Account, info: AccountInfo): Tables {
    t.(blocks := t.blocks[h := b],
       successors := t.successors[h := NO_HASH],
       frontiers := t.frontiers[h := a],
       accounts := t.accounts[a := info])
  }

  /** The tables after the last block `h` of the chain of `a`, above `previous`, has been taken off. */
  function Popped(t: Tables, h: Hash, previous: Hash, a: Account, info: AccountInfo): Tables {
    t.(blocks := t.blocks - {h},
       successors := (t.successors - {h})[previous := NO_HASH],
       frontiers := (t.frontiers - {h})[previous := a],
       accounts := t.accounts[a := info],
       blockInfos := t.blockInfos - {h})
  }

  /** The tables after the only block `h` of the chain of `a` has been taken off. */
  function Closed(t: Tables, h: Hash, a: Account): Tables {
    t.(blocks := t.blocks - {h},
       successors := t.successors - {h},
       frontiers := t.frontiers - {h},
       accounts := t.accounts - {a})
  }

  /** The head of an account's entry is the last block of the chain. */
  lemma HeadOf(l: Lattice, accounts: map<Account, AccountInfo>, a: Account)
    requires AccountsOk(accounts, l) && a in accounts
    ensures IsHead(l, accounts[a].head) && accounts[a].head in l.place
    ensures l.place[accounts[a].head].account == a
  {
    assert AccountOk(l, a, accounts[a]);
    forall x | x in l.place && l.place[x].account == a
      ensures l.place[x].height <= accounts[a].blockCount
    {
      assert UnderHead(accounts, l.place[x]);
    }
  }

  /** A hash is a frontier exactly when it is the head of its block's account. */
  lemma FrontierOf(t: Tables, l: Lattice, h: Hash)
    requires AccountsOk(t.accounts, l) && FrontiersOk(t.frontiers, t.accounts)
    ensures h in t.frontiers ==> h in l.place && t.frontiers[h] == l.place[h].account && IsHead(l, h)
    ensures h in l.place && IsHead(l, h) && Unique(l.place) ==>
              h in t.frontiers && l.place[h].account in t.accounts && t.accounts[l.place[h].account].head == h
  {
    assert FrontierOk(t.frontiers, t.accounts, h);
    if h in t.frontiers {
      HeadOf(l, t.accounts, t.frontiers[h]);
    }
    if h in l.place && IsHead(l, h) && Unique(l.place) {
      var a := l.place[h].account;
      assert UnderHead(t.accounts, l.place[h]);
      HeadOf(l, t.accounts, a);
      assert SamePlace(l.place[h], l.place[t.accounts[a].head]);
      assert HeadListed(t.frontiers, t.accounts, a);
    }
  }

  lemma PushAccounts(l: Lattice, accounts: map<Account, AccountInfo>, h: Hash, b: Block, m: Place, info: AccountInfo)
    requires AccountsOk(accounts, l) && h !in l.place && h !in l.blocks
    requires AccountOk(Extend(l, h, b, m), m.account, info) && info.head == h
    requires m.account in accounts ==> accounts[m.account].blockCount + 1 == m.height
    ensures AccountsOk(accounts[m.account := info], Extend(l, h, b, m))
  {
    var n := Extend(l, h, b, m);
    var accounts' := accounts[m.account := info];
    forall x | x in accounts'
      ensures AccountOk(n, x, accounts'[x])
    {
      if x != m.account { assert AccountOk(l, x, accounts[x]); }
    }
    forall x | x in n.place
      ensures UnderHead(accounts', n.place[x])
    {
      if x != h { assert UnderHead(accounts, l.place[x]); }
    }
  }

  /** A new block on top of `previous` makes itself a head and leaves the other heads alone. */
  lemma PushHeads(l: Lattice, h: Hash, b: Block, m: Place, previous: Hash, x: Hash)
    requires Unique(l.place) && h !in l.place && IsHead(l, previous) && x in l.place && x != previous
    requires l.place[previous].account == m.account && l.place[previous].height + 1 == m.height
    ensures IsHead(Extend(l, h, b, m), h)
    ensures IsHead(l, x) ==> IsHead(Extend(l, h, b, m), x)
  {
    assert SamePlace(l.place[x], l.place[previous]) ==> x == previous;
  }

  lemma PushSuccessors(l: Lattice, successors: map<Hash, Hash>, h: Hash, b: Block, m: Place)
    requires Chains(l) && SuccessorsOk(successors, l) && h !in l.blocks && h != NO_HASH && !b.Open?
    requires IsHead(l, b.previous)
    requires l.place[b.previous].account == m.account && l.place[b.previous].height + 1 == m.height
    ensures SuccessorsOk(successors[h := NO_HASH][b.previous := h], Extend(l, h, b, m))
  {
    var n := Extend(l, h, b, m);
    var successors' := successors[h := NO_HASH][b.previous := h];
    assert successors'.Keys == n.blocks.Keys;
    forall x | x in successors'
      ensures SuccessorOk(n, x, successors'[x])
    {
      if x == h {
        assert IsHead(n, h);
      } else if x != b.previous {
        PushHeads(l, h, b, m, b.previous, x);
        assert SuccessorOk(l, x, successors[x]);
      }
    }
  }

  lemma PushBlockInfos(l: Lattice, blockInfos: map<Hash, BlockInfo>, h: Hash, b: Block, m: Place)
    requires BlockInfosOk(blockInfos, l) && h !in l.place
    ensures BlockInfosOk(if m.height % BLOCK_INFO_MAX == 0 then blockInfos[h := BlockInfo(m.account, m.balance)] else blockInfos,
                         Extend(l, h, b, m))
  {
    var n := Extend(l, h, b, m);
    var infos' := if m.height % BLOCK_INFO_MAX == 0 then blockInfos[h := BlockInfo(m.account, m.balance)] else blockInfos;
    forall x | x in n.place
      ensures BlockInfoOk(infos', x, n.place[x])
    {
      if x != h { assert BlockInfoOk(blockInfos, x, l.place[x]); }
    }
  }

  /** Putting a rightly placed block on top of a chain keeps the indexes. */
  lemma PushIndexed(t: Tables, l: Lattice, h: Hash, b: Block, m: Place, info: AccountInfo)
    requires Indexed(t, l) && h !in l.blocks && !Reserved(l, h) && !b.Open?
    requires m.account in t.accounts && t.accounts[m.account].head == b.previous
    requires m.height == t.accounts[m.account].blockCount + 1
    requires info == AccountInfo(h, m.repBlock, t.accounts[m.account].openBlock, m.balance, m.height)
    requires Placed(Extend(l, h, b, m), h)
    ensures Indexed(Pushed(t, h, b, m.account, info), Extend(l, h, b, m))
  {
    var a := m.account;
    HeadOf(l, t.accounts, a);
    assert AccountOk(l, a, t.accounts[a]);
    forall k | k in l.place && l.place[k].account == a
      ensures l.place[k].height != m.height
    {
      assert UnderHead(t.accounts, l.place[k]);
    }
    ExtendChains(l, h, b, m);
    PushAccounts(l, t.accounts, h, b, m, info);
    PushSuccessors(l, t.successors, h, b, m);
    PushBlockInfos(l, t.blockInfos, h, b, m);
    FrontierOf(t, l, h);
    PushFrontiers(t.frontiers, t.accounts, h, a, info);
  }

  lemma PushFrontiers(frontiers: map<Hash, Account>, accounts: map<Account, AccountInfo>, h: Hash, a: Account, info: AccountInfo)
    requires FrontiersOk(frontiers, accounts) && h !in frontiers && a in accounts && info.head == h
    ensures FrontiersOk((frontiers - {accounts[a].head})[h := a], accounts[a := info])
  {
    var frontiers', accounts' := (frontiers - {accounts[a].head})[h := a], accounts[a := info];
    assert HeadListed(frontiers, accounts, a);
    forall x | x in frontiers'
      ensures FrontierOk(frontiers', accounts', x)
    {
      assert FrontierOk(frontiers, accounts, x);
    }
    forall x | x in accounts'
      ensures HeadListed(frontiers', accounts', x)
    {
      assert HeadListed(frontiers, accounts, x);
    }
  }

  /** Opening an account with a rightly placed block keeps the indexes. */
  lemma OpenIndexed(t: Tables, l: Lattice, h: Hash, b: Block, m: Place, info: AccountInfo)
    requires Indexed(t, l) && h !in l.blocks && !Reserved(l, h) && b.Open?
    requires m.account !in t.accounts && m.height == 1
    requires info == AccountInfo(h, m.repBlock, h, m.balance, 1)
    requires Placed(Extend(l, h, b, m), h)
    ensures Indexed(Opened(t, h, b, m.account, info), Extend(l, h, b, m))
  {
    forall k | k in l.place
      ensures l.place[k].account != m.account
    {
      assert UnderHead(t.accounts, l.place[k]);
    }
    ExtendChains(l, h, b, m);
    PushAccounts(l, t.accounts, h, b, m, info);
    OpenSuccessors(l, t.successors, h, b, m);
    PushBlockInfos(l, t.blockInfos, h, b, m);
    FrontierOf(t, l, h);
    OpenFrontiers(t.frontiers, t.accounts, h, m.account, info);
  }

  lemma OpenFrontiers(frontiers: map<Hash, Account>, accounts: map<Account, AccountInfo>, h: Hash, a: Account, info: AccountInfo)
    requires FrontiersOk(frontiers, accounts) && h !in frontiers && a !in accounts && info.head == h
    ensures FrontiersOk(frontiers[h := a], accounts[a := info])
  {
    var frontiers', accounts' := frontiers[h := a], accounts[a := info];
    forall x | x in frontiers'
      ensures FrontierOk(frontiers', accounts', x)
    {
      assert FrontierOk(frontiers, accounts, x);
    }
    forall x | x in accounts'
      ensures HeadListed(frontiers', accounts', x)
    {
      assert HeadListed(frontiers, accounts, x);
    }
  }

  lemma OpenSuccessors(l: Lattice, successors: map<Hash, Hash>, h: Hash, b: Block, m: Place)
    requires l.place.Keys == l.blocks.Keys && SuccessorsOk(successors, l) && h !in l.blocks
    requires forall k | k in l.place :: l.place[k].account != m.account
    ensures SuccessorsOk(successors[h := NO_HASH], Extend(l, h, b, m))
  {
    var n := Extend(l, h, b, m);
    var successors' := successors[h := NO_HASH];
    assert successors'.Keys == n.blocks.Keys;
    forall x | x in successors'
      ensures SuccessorOk(n, x, successors'[x])
    {
      if x != h { assert SuccessorOk(l, x, successors[x]); }
    }
  }

  lemma PopAccounts(l: Lattice, accounts: map<Account, AccountInfo>, h: Hash, previous: Hash, info: AccountInfo)
    requires Unique(l.place) && AccountsOk(accounts, l) && h in l.place && previous in l.place && previous != h
    requires AccountOk(l, l.place[h].account, info) && info.head == previous && info.openBlock != h
    requires l.place[h].account in accounts && accounts[l.place[h].account].head == h
    requires l.place[previous].height + 1 == l.place[h].height
    ensures AccountsOk(accounts[l.place[h].account := info], Remove(l, {h}))
  {
    var n := Remove(l, {h});
    var a := l.place[h].account;
    var accounts' := accounts[a := info];
    assert AccountOk(l, a, accounts[a]);
    forall x | x in accounts'
      ensures AccountOk(n, x, accounts'[x])
    {
      if x != a { assert AccountOk(l, x, accounts[x]); }
    }
    forall x | x in n.place
      ensures UnderHead(accounts', n.place[x])
    {
      assert UnderHead(accounts, l.place[x]);
      assert SamePlace(l.place[x], l.place[h]) ==> x == h;
    }
  }

  lemma PopSuccessors(l: Lattice, successors: map<Hash, Hash>, h: Hash, previous: Hash)
    requires Chains(l) && SuccessorsOk(successors, l) && IsHead(l, h) && !l.blocks[h].Open? && l.blocks[h].previous == previous
    ensures SuccessorsOk((successors - {h})[previous := NO_HASH], Remove(l, {h}))
  {
    var n := Remove(l, {h});
    var successors' := (successors - {h})[previous := NO_HASH];
    assert Placed(l, h);
    assert successors'.Keys == n.blocks.Keys;
    forall x | x in successors'
      ensures SuccessorOk(n, x, successors'[x])
    {
      if x == previous {
        forall y | y in n.place && n.place[y].account == n.place[previous].account
          ensures n.place[y].height <= n.place[previous].height
        {
          assert SamePlace(l.place[y], l.place[h]) ==> y == h;
        }
      } else {
        assert SuccessorOk(l, x, successors[x]);
      }
    }
  }

  lemma PopBlockInfos(l: Lattice, blockInfos: map<Hash, BlockInfo>, h: Hash)
    requires BlockInfosOk(blockInfos, l)
    ensures BlockInfosOk(blockInfos - {h}, Remove(l, {h}))
  {
    var n := Remove(l, {h});
    forall x | x in n.place
      ensures BlockInfoOk(blockInfos - {h}, x, n.place[x])
    {
      assert BlockInfoOk(blockInfos, x, l.place[x]);
    }
  }

  lemma PopFrontiers(frontiers: map<Hash, Account>, accounts: map<Account, AccountInfo>, a: Account, info: AccountInfo)
    requires FrontiersOk(frontiers, accounts) && a in accounts && info.head !in frontiers
    ensures FrontiersOk((frontiers - {accounts[a].head})[info.head := a], accounts[a := info])
  {
    var frontiers', accounts' := (frontiers - {accounts[a].head})[info.head := a], accounts[a := info];
    assert HeadListed(frontiers, accounts, a);
    forall x | x in frontiers'
      ensures FrontierOk(frontiers', accounts', x)
    {
      assert FrontierOk(frontiers, accounts, x);
    }
    forall x | x in accounts'
      ensures HeadListed(frontiers', accounts', x)
    {
      assert HeadListed(frontiers, accounts, x);
    }
  }

  /** Taking the last block off a chain of several keeps the indexes. */
  lemma PopIndexed(t: Tables, l: Lattice, h: Hash, info: AccountInfo)
    requires Indexed(t, l) && Receipts(l) && h in l.blocks && !l.blocks[h].Open? && h !in l.receipts
    requires l.place[h].account in t.accounts && t.accounts[l.place[h].account].head == h
    requires l.blocks[h].previous in l.place
    requires info == AccountInfo(l.blocks[h].previous, l.place[l.blocks[h].previous].repBlock,
                                 t.accounts[l.place[h].account].openBlock, l.place[l.blocks[h].previous].balance,
                                 l.place[l.blocks[h].previous].height)
    ensures Indexed(Popped(t, h, l.blocks[h].previous, l.place[h].account, info), Remove(l, {h}))
    ensures Receipts(Remove(l, {h}))
  {
    var a := l.place[h].account;
    var previous := l.blocks[h].previous;
    assert Placed(l, h) && Placed(l, previous);
    HeadOf(l, t.accounts, a);
    assert AccountOk(l, a, t.accounts[a]);
    RemoveHead(l, h);
    PopAccounts(l, t.accounts, h, previous, info);
    PopSuccessors(l, t.successors, h, previous);
    PopBlockInfos(l, t.blockInfos, h);
    FrontierOf(t, l, previous);
    PopFrontiers(t.frontiers, t.accounts, a, info);
  }

  lemma CloseAccounts(l: Lattice, accounts: map<Account, AccountInfo>, h: Hash)
    requires Unique(l.place) && AccountsOk(accounts, l) && IsHead(l, h) && l.place[h].height == 1
    requires forall x | x in l.place :: l.place[x].height >= 1
    ensures AccountsOk(accounts - {l.place[h].account}, Remove(l, {h}))
  {
    var n := Remove(l, {h});
    var a := l.place[h].account;
    forall x | x in accounts && x != a
      ensures AccountOk(n, x, accounts[x])
    {
      assert AccountOk(l, x, accounts[x]);
    }
    forall x | x in n.place
      ensures UnderHead(accounts - {a}, n.place[x])
    {
      assert UnderHead(accounts, l.place[x]);
      assert SamePlace(l.place[x], l.place[h]) ==> x == h;
      assert l.place[x].height >= 1;
    }
  }

  lemma CloseSuccessors(l: Lattice, successors: map<Hash, Hash>, h: Hash)
    requires Chains(l) && SuccessorsOk(successors, l) && h in l.blocks && l.blocks[h].Open?
    ensures SuccessorsOk(successors - {h}, Remove(l, {h}))
  {
    var n := Remove(l, {h});
    assert (successors - {h}).Keys == n.blocks.Keys;
    forall x | x in successors - {h}
      ensures SuccessorOk(n, x, (successors - {h})[x])
    {
      assert SuccessorOk(l, x, successors[x]);
    }
  }

  /** Taking the only block off a chain keeps the indexes. */
  lemma CloseIndexed(t: Tables, l: Lattice, h: Hash)
    requires Indexed(t, l) && Receipts(l) && h in l.blocks && l.blocks[h].Open? && h != l.genesis && h !in l.receipts
    requires l.place[h].account in t.accounts && t.accounts[l.place[h].account].head == h
    ensures Indexed(Closed(t, h, l.place[h].account), Remove(l, {h}))
    ensures Receipts(Remove(l, {h}))
  {
    var a := l.place[h].account;
    assert Placed(l, h);
    HeadOf(l, t.accounts, a);
    RemoveHead(l, h);
    forall x | x in l.place
      ensures l.place[x].height >= 1
    {
      assert Placed(l, x);
    }
    CloseAccounts(l, t.accounts, h);
    CloseSuccessors(l, t.successors, h);
    assert BlockInfoOk(t.blockInfos, h, l.place[h]);
    assert t.blockInfos - {h} == t.blockInfos;
    PopBlockInfos(l, t.blockInfos, h);
    CloseFrontiers(t.frontiers, t.accounts, a);
  }

  lemma CloseFrontiers(frontiers: map<Hash, Account>, accounts: map<Account, AccountInfo>, a: Account)
    requires FrontiersOk(frontiers, accounts) && a in accounts
    ensures FrontiersOk(frontiers - {accounts[a].head}, accounts - {a})
  {
    var frontiers', accounts' := frontiers - {accounts[a].head}, accounts - {a};
    assert HeadListed(frontiers, accounts, a);
    forall x | x in frontiers'
      ensures FrontierOk(frontiers', accounts', x)
    {
      assert FrontierOk(frontiers, accounts, x);
    }
    forall x | x in accounts'
      ensures HeadListed(frontiers', accounts', x)
    {
      assert HeadListed(frontiers, accounts, x);
    }
  }

  // ---------------------------------------------------------------------------------------------------------
  // Pending sends
  // ---------------------------------------------------------------------------------------------------------

  /** The entry describes an uncollected send. */
  ghost predicate PendingOf(l: Lattice, key: PendingKey, info: PendingInfo) {
    && key.hash in l.blocks && key.hash in l.place && l.blocks[key.hash].Send?
    && l.blocks[key.hash].destination == key.account
    && info == PendingInfo(l.place[key.hash].account, l.place[key.hash].amount)
    && key.hash !in l.receipts
  }

  /** If `s` is an uncollected send then it has an entry. */
  ghost predicate Outstanding(pending: map<PendingKey, PendingInfo>, l: Lattice, s: Hash)
    requires s in l.blocks
  {
    l.blocks[s].Send? && s !in l.receipts ==> PendingKey(l.blocks[s].destination, s) in pending
  }

  /** The pending table holds the uncollected sends. */
  ghost predicate PendingOk(pending: map<PendingKey, PendingInfo>, l: Lattice) {
    && (forall key {:trigger PendingOf(l, key, pending[key])} | key in pending :: PendingOf(l, key, pending[key]))
    && (forall s {:trigger Outstanding(pending, l, s)} | s in l.blocks :: Outstanding(pending, l, s))
  }

  /** The pending table after block `b` has been added. */
  ghost function ExtendedPending(pending: map<PendingKey, PendingInfo>, h: Hash, b: Block, m: Place)
    : map<PendingKey, PendingInfo>
  {
    if b.Send? then pending[PendingKey(b.destination, h) := PendingInfo(m.account, m.amount)]
    else if b.Collects() then pending - {PendingKey(m.account, b.source)}
    else pending
  }

  lemma ExtendPending(pending: map<PendingKey, PendingInfo>, l: Lattice, h: Hash, b: Block, m: Place)
    requires PendingOk(pending, l) && h !in l.blocks && h !in l.receipts
    requires b.Collects() ==> b.source in l.blocks && l.blocks[b.source].Send? && l.blocks[b.source].destination == m.account
    ensures PendingOk(ExtendedPending(pending, h, b, m), Extend(l, h, b, m))
  {
    var n := Extend(l, h, b, m);
    var pending' := ExtendedPending(pending, h, b, m);
    forall key | key in pending'
      ensures PendingOf(n, key, pending'[key])
    {
      if !b.Send? || key != PendingKey(b.destination, h) {
        assert PendingOf(l, key, pending[key]);
      }
    }
    forall s | s in n.blocks
      ensures Outstanding(pending', n, s)
    {
      if s != h { assert Outstanding(pending, l, s); }
    }
  }

  /** The pending table after block `h` has been taken off: its send leaves, or the send that it collected returns. */
  ghost function ReducedPending(pending: map<PendingKey, PendingInfo>, l: Lattice, h: Hash): map<PendingKey, PendingInfo>
    requires h in l.blocks && h in l.place && (l.blocks[h].Collects() ==> l.blocks[h].source in l.place)
  {
    var b := l.blocks[h];
    if b.Send? then pending - {PendingKey(b.destination, h)}
    else if b.Collects() then
      pending[PendingKey(l.place[h].account, b.source) := PendingInfo(l.place[b.source].account, l.place[b.source].amount)]
    else pending
  }

  lemma RemovePending(pending: map<PendingKey, PendingInfo>, l: Lattice, h: Hash)
    requires Chains(l) && Receipts(l) && PendingOk(pending, l) && h in l.blocks && h != l.genesis && h !in l.receipts
    ensures l.blocks[h].Collects() ==> l.blocks[h].source in l.place
    ensures PendingOk(ReducedPending(pending, l, h), Remove(l, {h}))
  {
    var n := Remove(l, {h});
    var b := l.blocks[h];
    assert Placed(l, h) && Receipted(l, h);
    var pending' := ReducedPending(pending, l, h);
    forall key | key in pending'
      ensures PendingOf(n, key, pending'[key])
    {
      if !b.Collects() || key != PendingKey(l.place[h].account, b.source) {
        assert PendingOf(l, key, pending[key]);
      }
    }
    forall s | s in n.blocks
      ensures Outstanding(pending', n, s)
    {
      assert Outstanding(pending, l, s);
      if s in l.receipts { assert Collected(l, s); }
    }
  }

  // ---------------------------------------------------------------------------------------------------------
  // Money and votes
  // ---------------------------------------------------------------------------------------------------------

  /** What an account holds and whom it lets vote with it. */
  datatype Holding = Holding(balance: Amount, representative: Account)

  /** `block->representative ()`. */
  function RepresentativeIn(blocks: map<Hash, Block>, h: Hash): Account {
    if h in blocks && blocks[h].NamesRepresentative() then blocks[h].representative else 0
  }

  function Holdings(accounts: map<Account, AccountInfo>, blocks: map<Hash, Block>): map<Account, Holding> {
    map a | a in accounts :: Holding(accounts[a].balance, RepresentativeIn(blocks, accounts[a].repBlock))
  }

  /** `representation_get`. */
  function Weight(representation: map<Account, Amount>, r: Account): Amount {
    if r in representation then representation[r] else 0
  }

  /** `representation_add`, in 128-bit arithmetic. */
  function AddWeight(representation: map<Account, Amount>, r: Account, amount: Amount): map<Account, Amount> {
    representation[r := Add128(Weight(representation, r), amount)]
  }

  function BalanceOf(): Holding -> nat { (x: Holding) => x.balance }
  function VotesFor(r: Account): Holding -> nat { (x: Holding) => if x.representative == r then x.balance else 0 }
  function AmountOf(): PendingInfo -> nat { (x: PendingInfo) => x.amount }

  /** What all accounts hold and what is under way add up to the genesis amount. */
  ghost predicate Conserved(hs: map<Account, Holding>, pending: map<PendingKey, PendingInfo>) {
    Sum(hs, BalanceOf()) + Sum(pending, AmountOf()) == GENESIS_AMOUNT
  }

  /** Every representative's weight is the sum of the balances delegated to it. */
  ghost predicate WeightsOk(representation: map<Account, Amount>, hs: map<Account, Holding>) {
    forall r :: Weight(representation, r) == Sum(hs, VotesFor(r))
  }

  ghost predicate MoneyOk(representation: map<Account, Amount>, hs: map<Account, Holding>, pending: map<PendingKey, PendingInfo>) {
    Conserved(hs, pending) && WeightsOk(representation, hs)
  }

  /** Nobody can hold or be sent more than there is. */
  lemma HoldingBound(hs: map<Account, Holding>, pending: map<PendingKey, PendingInfo>, a: Account)
    requires Conserved(hs, pending) && a in hs
    ensures forall key | key in pending :: hs[a].balance + pending[key].amount <= GENESIS_AMOUNT
    ensures Sum(hs, VotesFor(hs[a].representative)) >= hs[a].balance
    ensures forall r | r != hs[a].representative :: Sum(hs, VotesFor(r)) + hs[a].balance <= GENESIS_AMOUNT
  {
    SumWithout(hs, BalanceOf(), a);
    forall key | key in pending
      ensures hs[a].balance + pending[key].amount <= GENESIS_AMOUNT
    {
      SumWithout(pending, AmountOf(), key);
    }
    SumWithout(hs, VotesFor(hs[a].representative), a);
    forall r | r != hs[a].representative
      ensures Sum(hs, VotesFor(r)) + hs[a].balance <= GENESIS_AMOUNT
    {
      SumWithout(hs, VotesFor(r), a);
      SumAtMost(hs - {a}, VotesFor(r), BalanceOf());
    }
  }

  lemma VotesBound(hs: map<Account, Holding>, pending: map<PendingKey, PendingInfo>, key: PendingKey, r: Account)
    requires Conserved(hs, pending) && key in pending
    ensures Sum(hs, VotesFor(r)) + pending[key].amount <= GENESIS_AMOUNT
  {
    SumAtMost(hs, VotesFor(r), BalanceOf());
    SumWithout(pending, AmountOf(), key);
  }

  lemma AddThenSubtract(w: Amount, b: Amount)
    ensures Add128(Add128(w, b), Sub128(0, b)) == w
    ensures w + b < MODULUS ==> Add128(w, b) == w + b
    ensures b <= w ==> Add128(w, Sub128(0, b)) == w - b
  {
  }

  /** An amount leaves an account for the pending table. */
  lemma MoneyOut(representation: map<Account, Amount>, hs: map<Account, Holding>, pending: map<PendingKey, PendingInfo>,
                 a: Account, amount: Amount, key: PendingKey, source: Account)
    requires MoneyOk(representation, hs, pending) && a in hs && amount <= hs[a].balance && key !in pending
    ensures MoneyOk(AddWeight(representation, hs[a].representative, Sub128(0, amount)),
                    hs[a := Holding(hs[a].balance - amount, hs[a].representative)],
                    pending[key := PendingInfo(source, amount)])
  {
    var x := Holding(hs[a].balance - amount, hs[a].representative);
    HoldingBound(hs, pending, a);
    SumPut(hs, BalanceOf(), a, x);
    SumPut(pending, AmountOf(), key, PendingInfo(source, amount));
    forall r
      ensures Weight(AddWeight(representation, hs[a].representative, Sub128(0, amount)), r) == Sum(hs[a := x], VotesFor(r))
    {
      SumPut(hs, VotesFor(r), a, x);
      assert Weight(representation, r) == Sum(hs, VotesFor(r));
      AddThenSubtract(Weight(representation, r), amount);
    }
  }

  /** A pending amount enters an account. */
  lemma MoneyIn(representation: map<Account, Amount>, hs: map<Account, Holding>, pending: map<PendingKey, PendingInfo>,
                a: Account, key: PendingKey)
    requires MoneyOk(representation, hs, pending) && key in pending && a in hs
    ensures hs[a].balance + pending[key].amount <= GENESIS_AMOUNT
    ensures MoneyOk(AddWeight(representation, hs[a].representative, pending[key].amount),
                    hs[a := Holding(hs[a].balance + pending[key].amount, hs[a].representative)], pending - {key})
  {
    HoldingBound(hs, pending, a);
    var x := Holding(hs[a].balance + pending[key].amount, hs[a].representative);
    Deposit(representation, hs, pending, a, x, key);
  }

  /** A pending amount opens an account. */
  lemma MoneyOpens(representation: map<Account, Amount>, hs: map<Account, Holding>, pending: map<PendingKey, PendingInfo>,
                   a: Account, r: Account, key: PendingKey)
    requires MoneyOk(representation, hs, pending) && key in pending && a !in hs
    ensures MoneyOk(AddWeight(representation, r, pending[key].amount),
                    hs[a := Holding(pending[key].amount, r)], pending - {key})
  {
    Deposit(representation, hs, pending, a, Holding(pending[key].amount, r), key);
  }

  lemma Deposit(representation: map<Account, Amount>, hs: map<Account, Holding>, pending: map<PendingKey, PendingInfo>,
                a: Account, x: Holding, key: PendingKey)
    requires MoneyOk(representation, hs, pending) && key in pending
    requires if a in hs then x.representative == hs[a].representative && x.balance == hs[a].balance + pending[key].amount
             else x.balance == pending[key].amount
    ensures MoneyOk(AddWeight(representation, x.representative, pending[key].amount), hs[a := x], pending - {key})
  {
    var amount := pending[key].amount;
    SumPut(hs, BalanceOf(), a, x);
    SumWithout(pending, AmountOf(), key);
    VotesBound(hs, pending, key, x.representative);
    forall q
      ensures Weight(AddWeight(representation, x.representative, amount), q) == Sum(hs[a := x], VotesFor(q))
    {
      SumPut(hs, VotesFor(q), a, x);
      assert Weight(representation, q) == Sum(hs, VotesFor(q));
      AddThenSubtract(Weight(representation, q), amount);
    }
  }

  /** An account is closed and all it holds becomes pending. */
  lemma MoneyBack(representation: map<Account, Amount>, hs: map<Account, Holding>, pending: map<PendingKey, PendingInfo>,
                  a: Account, key: PendingKey, source: Account)
    requires MoneyOk(representation, hs, pending) && a in hs && key !in pending
    ensures MoneyOk(AddWeight(representation, hs[a].representative, Sub128(0, hs[a].balance)), hs - {a},
                    pending[key := PendingInfo(source, hs[a].balance)])
  {
    var x := hs[a];
    HoldingBound(hs, pending, a);
    SumWithout(hs, BalanceOf(), a);
    SumPut(pending, AmountOf(), key, PendingInfo(source, x.balance));
    forall r
      ensures Weight(AddWeight(representation, x.representative, Sub128(0, x.balance)), r) == Sum(hs - {a}, VotesFor(r))
    {
      SumWithout(hs, VotesFor(r), a);
      assert Weight(representation, r) == Sum(hs, VotesFor(r));
      AddThenSubtract(Weight(representation, r), x.balance);
    }
  }

  /** An account delegates its balance to another representative. */
  lemma Delegation(representation: map<Account, Amount>, hs: map<Account, Holding>, pending: map<PendingKey, PendingInfo>,
                   a: Account, r: Account)
    requires MoneyOk(representation, hs, pending) && a in hs
    ensures MoneyOk(AddWeight(AddWeight(representation, r, hs[a].balance), hs[a].representative, Sub128(0, hs[a].balance)),
                    hs[a := Holding(hs[a].balance, r)], pending)
  {
    var x := Holding(hs[a].balance, r);
    var representation' := AddWeight(AddWeight(representation, r, hs[a].balance), hs[a].representative, Sub128(0, hs[a].balance));
    HoldingBound(hs, pending, a);
    SumPut(hs, BalanceOf(), a, x);
    forall q
      ensures Weight(representation', q) == Sum(hs[a := x], VotesFor(q))
    {
      SumPut(hs, VotesFor(q), a, x);
      assert Weight(representation, q) == Sum(hs, VotesFor(q));
      AddThenSubtract(Weight(representation, q), hs[a].balance);
    }
  }

  // ---------------------------------------------------------------------------------------------------------
  // Valid tables, and the operations on them
  // ---------------------------------------------------------------------------------------------------------

  /** The tables are those of the lattice. */
  ghost predicate Valid(t: Tables, l: Lattice) {
    && Indexed(t, l)
    && Receipts(l)
    && PendingOk(t.pending, l)
    && MoneyOk(t.representation, Holdings(t.accounts, t.blocks), t.pending)
  }

  /** The place that block `h` takes on top of the lattice. */
  ghost function PlaceFor(l: Lattice, h: Hash, b: Block): Place
    requires if b.Open? then b.source in l.place else b.previous in l.place
    requires b.Receive? ==> b.source in l.place
    requires b.Send? ==> b.balance <= l.place[b.previous].balance
    requires b.Receive? ==> l.place[b.previous].balance + l.place[b.source].amount < MODULUS
  {
    match b
    case Open(source, _, account) => Place(account, 1, l.place[source].amount, 0, h, l.clock)
    case Send(previous, _, balance) =>
      var p := l.place[previous];
      Place(p.account, p.height + 1, balance, p.balance - balance, p.repBlock, l.clock)
    case SendV2(previous, _) =>
      var p := l.place[previous];
      Place(p.account, p.height + 1, p.balance, 0, p.repBlock, l.clock)
    case Receive(previous, source) =>
      var p := l.place[previous];
      Place(p.account, p.height + 1, p.balance + l.place[source].amount, 0, p.repBlock, l.clock)
    case Change(previous, _) =>
      var p := l.place[previous];
      Place(p.account, p.height + 1, p.balance, 0, h, l.clock)
  }

  /** `source` is a send to `account` that nobody has collected. */
  ghost predicate Collectable(l: Lattice, source: Hash, account: Account) {
    source in l.blocks && l.blocks[source].Send? && l.blocks[source].destination == account && source !in l.receipts
  }

  /** The pending table knows which sends can be collected. */
  lemma PendingKnows(t: Tables, l: Lattice, key: PendingKey)
    requires Indexed(t, l) && PendingOk(t.pending, l)
    ensures key in t.pending <==> Collectable(l, key.hash, key.account)
    ensures key in t.pending ==> PendingOf(l, key, t.pending[key])
  {
    if key in t.pending { assert PendingOf(l, key, t.pending[key]); }
    if Collectable(l, key.hash, key.account) { assert Outstanding(t.pending, l, key.hash); }
  }

  lemma HoldingsPut(accounts: map<Account, AccountInfo>, blocks: map<Hash, Block>, blocks': map<Hash, Block>,
                    a: Account, info: AccountInfo)
    requires forall x | x in accounts && x != a ::
               RepresentativeIn(blocks', accounts[x].repBlock) == RepresentativeIn(blocks, accounts[x].repBlock)
    ensures Holdings(accounts[a := info], blocks')
         == Holdings(accounts, blocks)[a := Holding(info.balance, RepresentativeIn(blocks', info.repBlock))]
  {
  }

  /** Every account's representative is named by a block in the store, and adding blocks does not change it. */
  lemma RepBlockStored(t: Tables, l: Lattice, a: Account)
    requires Indexed(t, l) && a in t.accounts
    ensures t.accounts[a].repBlock in t.blocks && t.blocks[t.accounts[a].repBlock].NamesRepresentative()
  {
    assert AccountOk(l, a, t.accounts[a]);
    assert Placed(l, t.accounts[a].head);
  }

  lemma HoldingsAfterPush(t: Tables, l: Lattice, h: Hash, b: Block, a: Account, info: AccountInfo)
    requires Indexed(t, l) && h !in l.blocks
    ensures Holdings(t.accounts[a := info], t.blocks[h := b])
         == Holdings(t.accounts, t.blocks)[a := Holding(info.balance, RepresentativeIn(t.blocks[h := b], info.repBlock))]
  {
    forall x | x in t.accounts
      ensures RepresentativeIn(t.blocks[h := b], t.accounts[x].repBlock) == RepresentativeIn(t.blocks, t.accounts[x].repBlock)
    {
      RepBlockStored(t, l, x);
    }
    HoldingsPut(t.accounts, t.blocks, t.blocks[h := b], a, info);
  }

  /** The account of a frontier, with what its entry says. */
  lemma FrontierFacts(t: Tables, l: Lattice, h: Hash)
    requires Indexed(t, l) && h in t.frontiers
    ensures h in l.place && IsHead(l, h) && Placed(l, h)
    ensures var a := t.frontiers[h];
            && a == l.place[h].account && a != BURN_ACCOUNT && a in t.accounts && t.accounts[a].head == h
            && AccountOk(l, a, t.accounts[a])
            && Represented(l, l.place[h])
            && a in Holdings(t.accounts, t.blocks)
            && Holdings(t.accounts, t.blocks)[a]
               == Holding(l.place[h].balance, RepresentativeIn(t.blocks, l.place[h].repBlock))
  {
    FrontierOf(t, l, h);
    assert FrontierOk(t.frontiers, t.accounts, h);
    assert AccountOk(l, t.frontiers[h], t.accounts[t.frontiers[h]]);
    assert Placed(l, h);
  }

  /** Block `h` has an entry for its account as its head, with these fields. */
  ghost predicate EntryOf(t: Tables, l: Lattice, h: Hash) {
    && h in l.place && h in t.frontiers && t.frontiers[h] == l.place[h].account && t.frontiers[h] in t.accounts
    && var p := l.place[h];
       && t.accounts[p.account] == AccountInfo(h, p.repBlock, t.accounts[p.account].openBlock, p.balance, p.height)
       && p.repBlock in t.blocks
  }

  lemma FrontierEntry(t: Tables, l: Lattice, h: Hash)
    requires Indexed(t, l) && h in t.frontiers
    ensures EntryOf(t, l, h)
  {
    FrontierFacts(t, l, h);
  }

  /** What the account of a frontier holds. */
  lemma EntryHolds(t: Tables, l: Lattice, h: Hash)
    requires EntryOf(t, l, h)
    ensures var p := l.place[h];
            && p.account in Holdings(t.accounts, t.blocks)
            && Holdings(t.accounts, t.blocks)[p.account] == Holding(p.balance, RepresentativeIn(t.blocks, p.repBlock))
  {
  }

  lemma FreshHash(l: Lattice, h: Hash)
    requires Receipts(l) && h !in l.blocks
    ensures h !in l.receipts
  {
    forall s | s in l.receipts
      ensures s in l.blocks
    {
      assert Collected(l, s);
    }
  }

  /** Block `b` can go on top of the lattice. */
  ghost predicate Fits(l: Lattice, h: Hash, b: Block) {
    && h !in l.blocks && !Reserved(l, h)
    && (if b.Open? then b.source in l.place && b.account != BURN_ACCOUNT && Collectable(l, b.source, b.account)
        else b.previous in l.place && IsHead(l, b.previous))
    && (b.Send? ==> b.balance <= l.place[b.previous].balance)
    && (b.Receive? ==>
          && b.source in l.place && Collectable(l, b.source, l.place[b.previous].account)
          && l.place[b.previous].balance + l.place[b.source].amount < MODULUS)
  }

  /** The place for a block is a right one. */
  lemma PlaceForIsRight(l: Lattice, h: Hash, b: Block)
    requires Chains(l) && Fits(l, h, b)
    ensures Placed(Extend(l, h, b, PlaceFor(l, h, b)), h)
  {
    if !b.Open? { assert Placed(l, b.previous); }
    if b.Collects() { assert Placed(l, b.source); }
  }

  /** The entry of the account after block `b` has been put on top. */
  ghost function PushedInfo(t: Tables, h: Hash, m: Place): AccountInfo
    requires m.account in t.accounts
  {
    AccountInfo(h, m.repBlock, t.accounts[m.account].openBlock, m.balance, m.height)
  }

  /** A block put on top of its account keeps the tables valid if the money is right. */
  lemma PushValid(t: Tables, l: Lattice, h: Hash, b: Block, representation: map<Account, Amount>)
    requires Valid(t, l) && Fits(l, h, b) && !b.Open? && b.previous in t.frontiers
    requires var m := PlaceFor(l, h, b);
             MoneyOk(representation,
                     Holdings(t.accounts, t.blocks)[m.account := Holding(m.balance, RepresentativeIn(t.blocks[h := b], m.repBlock))],
                     ExtendedPending(t.pending, h, b, m))
    ensures PlaceFor(l, h, b).account in t.accounts
    ensures Valid(PushResult(t, l, h, b, representation), Accepted(l, h, b))
  {
    FrontierFacts(t, l, b.previous);
    var m := PlaceFor(l, h, b);
    PlaceForIsRight(l, h, b);
    PushIndexed(t, l, h, b, m, PushedInfo(t, h, m));
    ExtendReceipts(l, h, b, m);
    FreshHash(l, h);
    ExtendPending(t.pending, l, h, b, m);
    HoldingsAfterPush(t, l, h, b, m.account, PushedInfo(t, h, m));
  }

  /** The balances and votes after a send, a receive and a change add up. */
  lemma SendMoney(t: Tables, l: Lattice, h: Hash, b: Block)
    requires Valid(t, l) && Fits(l, h, b) && b.Send? && b.previous in t.frontiers
    ensures var m := PlaceFor(l, h, b);
            MoneyOk(AddWeight(t.representation, RepresentativeIn(t.blocks, m.repBlock), Sub128(0, m.amount)),
                    Holdings(t.accounts, t.blocks)[m.account := Holding(m.balance, RepresentativeIn(t.blocks[h := b], m.repBlock))],
                    ExtendedPending(t.pending, h, b, m))
  {
    FrontierEntry(t, l, b.previous);
    EntryHolds(t, l, b.previous);
    var m := PlaceFor(l, h, b);
    PendingKnows(t, l, PendingKey(b.destination, h));
    MoneyOut(t.representation, Holdings(t.accounts, t.blocks), t.pending, m.account, m.amount,
             PendingKey(b.destination, h), m.account);
  }

  lemma ReceiveMoney(t: Tables, l: Lattice, h: Hash, b: Block)
    requires Valid(t, l) && Fits(l, h, b) && b.Receive? && b.previous in t.frontiers
    ensures var m := PlaceFor(l, h, b);
            MoneyOk(AddWeight(t.representation, RepresentativeIn(t.blocks, m.repBlock), l.place[b.source].amount),
                    Holdings(t.accounts, t.blocks)[m.account := Holding(m.balance, RepresentativeIn(t.blocks[h := b], m.repBlock))],
                    ExtendedPending(t.pending, h, b, m))
  {
    FrontierEntry(t, l, b.previous);
    EntryHolds(t, l, b.previous);
    var m := PlaceFor(l, h, b);
    PendingKnows(t, l, PendingKey(m.account, b.source));
    MoneyIn(t.representation, Holdings(t.accounts, t.blocks), t.pending, m.account, PendingKey(m.account, b.source));
  }

  /** A pending amount can always be added to a balance without wrapping around. */
  lemma ReceiveFits(t: Tables, l: Lattice, h: Hash, b: Block)
    requires Valid(t, l) && h !in l.blocks && !Reserved(l, h) && b.Receive? && b.previous in t.frontiers
    requires PendingKey(t.frontiers[b.previous], b.source) in t.pending
    ensures Fits(l, h, b)
    ensures t.pending[PendingKey(t.frontiers[b.previous], b.source)].amount == l.place[b.source].amount
  {
    FrontierFacts(t, l, b.previous);
    var key := PendingKey(t.frontiers[b.previous], b.source);
    PendingKnows(t, l, key);
    MoneyIn(t.representation, Holdings(t.accounts, t.blocks), t.pending, t.frontiers[b.previous], key);
  }

  lemma ChangeMoney(t: Tables, l: Lattice, h: Hash, b: Block)
    requires Valid(t, l) && Fits(l, h, b) && (b.Change? || b.SendV2?) && b.previous in t.frontiers
    ensures var m := PlaceFor(l, h, b);
            var hs := Holdings(t.accounts, t.blocks);
            && (b.Change? ==>
                  MoneyOk(AddWeight(AddWeight(t.representation, b.representative, m.balance),
                                    RepresentativeIn(t.blocks, l.place[b.previous].repBlock), Sub128(0, m.balance)),
                          hs[m.account := Holding(m.balance, RepresentativeIn(t.blocks[h := b], m.repBlock))], t.pending))
            && (b.SendV2? ==>
                  MoneyOk(t.representation,
                          hs[m.account := Holding(m.balance, RepresentativeIn(t.blocks[h := b], m.repBlock))], t.pending))
  {
    FrontierEntry(t, l, b.previous);
    EntryHolds(t, l, b.previous);
    var m := PlaceFor(l, h, b);
    var hs := Holdings(t.accounts, t.blocks);
    if b.Change? {
      Delegation(t.representation, hs, t.pending, m.account, b.representative);
    } else {
      assert hs[m.account := hs[m.account]] == hs;
    }
  }

  /** Opening an account keeps the tables valid. */
  lemma OpenValid(t: Tables, l: Lattice, h: Hash, b: Block)
    requires Valid(t, l) && Fits(l, h, b) && b.Open? && b.account !in t.accounts
    ensures var m := PlaceFor(l, h, b);
            Valid(Opened(t, h, b, b.account, AccountInfo(h, h, h, m.balance, 1)).(
                    pending := ExtendedPending(t.pending, h, b, m),
                    representation := AddWeight(t.representation, b.representative, m.balance)),
                  Extend(l, h, b, m))
  {
    var key := PendingKey(b.account, b.source);
    PendingKnows(t, l, key);
    var m := PlaceFor(l, h, b);
    var info := AccountInfo(h, h, h, m.balance, 1);
    MoneyOpens(t.representation, Holdings(t.accounts, t.blocks), t.pending, b.account, b.representative, key);
    PlaceForIsRight(l, h, b);
    OpenIndexed(t, l, h, b, m, info);
    ExtendReceipts(l, h, b, m);
    FreshHash(l, h);
    ExtendPending(t.pending, l, h, b, m);
    HoldingsAfterPush(t, l, h, b, b.account, info);
  }

  lemma HoldingsAfterPop(t: Tables, l: Lattice, h: Hash)
    requires Indexed(t, l) && Receipts(l) && h !in l.receipts && h in l.blocks && IsHead(l, h)
    ensures forall x | x in t.accounts && x != l.place[h].account ::
              RepresentativeIn(t.blocks - {h}, t.accounts[x].repBlock) == RepresentativeIn(t.blocks, t.accounts[x].repBlock)
  {
    forall x | x in t.accounts && x != l.place[h].account
      ensures RepresentativeIn(t.blocks - {h}, t.accounts[x].repBlock) == RepresentativeIn(t.blocks, t.accounts[x].repBlock)
    {
      assert AccountOk(l, x, t.accounts[x]);
      HeadIsUnused(l, h, t.accounts[x].head);
    }
  }

  /** Block `h` is the last of its chain, and not a collected send: it can be taken off. */
  ghost predicate Removable(t: Tables, l: Lattice, h: Hash) {
    && h in l.blocks && h in l.place && h != l.genesis && h !in l.receipts && h in t.frontiers
    && (!l.blocks[h].Open? ==> l.blocks[h].previous in l.place)
    && (l.blocks[h].Collects() ==> l.blocks[h].source in l.place)
  }

  /** The entry of the account after block `h` has been taken off. */
  ghost function PoppedInfo(t: Tables, l: Lattice, h: Hash): AccountInfo
    requires Removable(t, l, h) && !l.blocks[h].Open? && l.place[h].account in t.accounts
  {
    var p := l.place[l.blocks[h].previous];
    AccountInfo(l.blocks[h].previous, p.repBlock, t.accounts[l.place[h].account].openBlock, p.balance, p.height)
  }

  lemma PopHoldings(t: Tables, l: Lattice, h: Hash)
    requires Indexed(t, l) && Receipts(l) && Removable(t, l, h) && !l.blocks[h].Open?
    ensures l.place[h].account in t.accounts
    ensures Holdings(t.accounts[l.place[h].account := PoppedInfo(t, l, h)], t.blocks - {h}) == PopHolding(t, l, h)
  {
    FrontierFacts(t, l, h);
    HoldingsAfterPop(t, l, h);
    HoldingsPut(t.accounts, t.blocks, t.blocks - {h}, l.place[h].account, PoppedInfo(t, l, h));
    HeadIsUnused(l, h, l.blocks[h].previous);
  }

  lemma PopIndexes(t: Tables, l: Lattice, h: Hash)
    requires Indexed(t, l) && Receipts(l) && Removable(t, l, h) && !l.blocks[h].Open?
    ensures l.place[h].account in t.accounts
    ensures Indexed(Popped(t, h, l.blocks[h].previous, l.place[h].account, PoppedInfo(t, l, h)), Remove(l, {h}))
    ensures Receipts(Remove(l, {h}))
  {
    FrontierFacts(t, l, h);
    PopIndexed(t, l, h, PoppedInfo(t, l, h));
  }

  /** Taking the last block off a chain of several keeps the tables valid if the money is right. */
  lemma PopValid(t: Tables, l: Lattice, h: Hash, representation: map<Account, Amount>)
    requires Valid(t, l) && Removable(t, l, h) && !l.blocks[h].Open?
    requires MoneyOk(representation, PopHolding(t, l, h), ReducedPending(t.pending, l, h))
    ensures l.place[h].account in t.accounts
    ensures Valid(Popped(t, h, l.blocks[h].previous, l.place[h].account, PoppedInfo(t, l, h)).(
                    pending := ReducedPending(t.pending, l, h), representation := representation),
                  Remove(l, {h}))
  {
    PopIndexes(t, l, h);
    RemovePending(t.pending, l, h);
    PopHoldings(t, l, h);
  }

  /** What the account of `h` holds once `h` has been taken off. */
  ghost function PopHolding(t: Tables, l: Lattice, h: Hash): map<Account, Holding>
    requires Removable(t, l, h) && !l.blocks[h].Open?
  {
    var p := l.place[l.blocks[h].previous];
    Holdings(t.accounts, t.blocks)[p.account := Holding(p.balance, RepresentativeIn(t.blocks, p.repBlock))]
  }

  lemma PopSendMoney(t: Tables, l: Lattice, h: Hash)
    requires Valid(t, l) && Removable(t, l, h) && l.blocks[h].Send?
    ensures MoneyOk(AddWeight(t.representation, RepresentativeIn(t.blocks, l.place[h].repBlock), l.place[h].amount),
                    PopHolding(t, l, h), ReducedPending(t.pending, l, h))
  {
    FrontierEntry(t, l, h);
    EntryHolds(t, l, h);
    assert Placed(l, h);
    var key := PendingKey(l.blocks[h].destination, h);
    PendingKnows(t, l, key);
    MoneyIn(t.representation, Holdings(t.accounts, t.blocks), t.pending, l.place[h].account, key);
  }

  lemma PopReceiveMoney(t: Tables, l: Lattice, h: Hash)
    requires Valid(t, l) && Removable(t, l, h) && l.blocks[h].Receive?
    ensures MoneyOk(AddWeight(t.representation, RepresentativeIn(t.blocks, l.place[h].repBlock),
                              Sub128(0, l.place[l.blocks[h].source].amount)),
                    PopHolding(t, l, h), ReducedPending(t.pending, l, h))
  {
    FrontierEntry(t, l, h);
    EntryHolds(t, l, h);
    assert Placed(l, h) && Receipted(l, h);
    var a, source := l.place[h].account, l.blocks[h].source;
    PendingKnows(t, l, PendingKey(a, source));
    MoneyOut(t.representation, Holdings(t.accounts, t.blocks), t.pending, a, l.place[source].amount,
             PendingKey(a, source), l.place[source].account);
  }

  lemma PopChangeMoney(t: Tables, l: Lattice, h: Hash)
    requires Valid(t, l) && Removable(t, l, h) && l.blocks[h].Change?
    ensures var p := l.place[l.blocks[h].previous];
            MoneyOk(AddWeight(AddWeight(t.representation, RepresentativeIn(t.blocks, p.repBlock), p.balance),
                              l.blocks[h].representative, Sub128(0, p.balance)),
                    PopHolding(t, l, h), ReducedPending(t.pending, l, h))
  {
    FrontierEntry(t, l, h);
    EntryHolds(t, l, h);
    assert Placed(l, h);
    Delegation(t.representation, Holdings(t.accounts, t.blocks), t.pending, l.place[h].account,
               RepresentativeIn(t.blocks, l.place[l.blocks[h].previous].repBlock));
  }

  lemma CloseMoney(t: Tables, l: Lattice, h: Hash)
    requires Valid(t, l) && Removable(t, l, h) && l.blocks[h].Open?
    ensures MoneyOk(AddWeight(t.representation, l.blocks[h].representative, Sub128(0, l.place[l.blocks[h].source].amount)),
                    Holdings(t.accounts - {l.place[h].account}, t.blocks - {h}), ReducedPending(t.pending, l, h))
  {
    FrontierFacts(t, l, h);
    var a := l.place[h].account;
    var source := l.blocks[h].source;
    assert Receipted(l, h);
    HoldingsAfterPop(t, l, h);
    PendingKnows(t, l, PendingKey(a, source));
    MoneyBack(t.representation, Holdings(t.accounts, t.blocks), t.pending, a, PendingKey(a, source), l.place[source].account);
    assert Holdings(t.accounts - {a}, t.blocks - {h}) == Holdings(t.accounts, t.blocks) - {a};
  }

  lemma CloseIndexes(t: Tables, l: Lattice, h: Hash)
    requires Indexed(t, l) && Receipts(l) && Removable(t, l, h) && l.blocks[h].Open?
    ensures Indexed(Closed(t, h, l.place[h].account), Remove(l, {h}))
    ensures Receipts(Remove(l, {h}))
  {
    FrontierFacts(t, l, h);
    CloseIndexed(t, l, h);
  }

  /** Taking off the only block of a chain closes the account and keeps the tables valid. */
  lemma CloseValid(t: Tables, l: Lattice, h: Hash)
    requires Valid(t, l) && Removable(t, l, h) && l.blocks[h].Open?
    ensures Valid(Closed(t, h, l.place[h].account).(
                    pending := ReducedPending(t.pending, l, h),
                    representation := AddWeight(t.representation, l.blocks[h].representative,
                                                Sub128(0, l.place[l.blocks[h].source].amount))),
                  Remove(l, {h}))
  {
    CloseIndexes(t, l, h);
    RemovePending(t.pending, l, h);
    CloseMoney(t, l, h);
  }

  // ---------------------------------------------------------------------------------------------------------
  // The operations as functions of the tables
  // ---------------------------------------------------------------------------------------------------------

  /** The lattice after block `b` has been accepted. */
  ghost function Accepted(l: Lattice, h: Hash, b: Block): Lattice
    requires Fits(l, h, b)
  {
    Extend(l, h, b, PlaceFor(l, h, b))
  }

  /** `block_put`: the block has no successor, and becomes the successor of the block below it. */
  function PutSuccessors(successors: map<Hash, Hash>, h: Hash, b: Block): map<Hash, Hash> {
    if b.Open? then successors[h := NO_HASH] else successors[h := NO_HASH][b.previous := h]
  }

  /** `change_latest`: rewrites the entry of an account, or deletes it if there is no block left. */
  function LatestAccounts(accounts: map<Account, AccountInfo>, a: Account, h: Hash, repBlock: Hash, balance: Amount,
                          blockCount: nat): map<Account, AccountInfo>
  {
    if h == NO_HASH then accounts - {a}
    else accounts[a := AccountInfo(h, repBlock, if a in accounts then accounts[a].openBlock else h, balance, blockCount)]
  }

  /** `change_latest`: stores the block's info at every 32nd height. */
  function LatestInfos(blockInfos: map<Hash, BlockInfo>, a: Account, h: Hash, balance: Amount, blockCount: nat)
    : map<Hash, BlockInfo>
  {
    if h != NO_HASH && blockCount % BLOCK_INFO_MAX == 0 then blockInfos[h := BlockInfo(a, balance)] else blockInfos
  }

  /** The block below `b` is a frontier with an entry for its account. */
  predicate OnFrontier(t: Tables, b: Block) {
    !b.Open? && b.previous in t.frontiers && t.frontiers[b.previous] in t.accounts
  }

  function SendResult(t: Tables, h: Hash, b: Block): Tables
    requires OnFrontier(t, b) && b.Send? && b.balance <= t.accounts[t.frontiers[b.previous]].balance
  {
    var a := t.frontiers[b.previous];
    var info := t.accounts[a];
    var amount := info.balance - b.balance;
    Pushed(t, h, b, a, AccountInfo(h, info.repBlock, info.openBlock, b.balance, info.blockCount + 1)).(
      pending := t.pending[PendingKey(b.destination, h) := PendingInfo(a, amount)],
      representation := AddWeight(t.representation, RepresentativeIn(t.blocks, info.repBlock), Sub128(0, amount)))
  }

  function SendV2Result(t: Tables, h: Hash, b: Block): Tables
    requires OnFrontier(t, b) && b.SendV2?
  {
    var a := t.frontiers[b.previous];
    var info := t.accounts[a];
    Pushed(t, h, b, a, AccountInfo(h, info.repBlock, info.openBlock, info.balance, info.blockCount + 1))
  }

  function ChangeResult(t: Tables, h: Hash, b: Block, balance: Amount): Tables
    requires OnFrontier(t, b) && b.Change?
  {
    var a := t.frontiers[b.previous];
    var info := t.accounts[a];
    Pushed(t, h, b, a, AccountInfo(h, h, info.openBlock, info.balance, info.blockCount + 1)).(
      representation := AddWeight(AddWeight(t.representation, b.representative, balance),
                                  RepresentativeIn(t.blocks[h := b], info.repBlock), Sub128(0, balance)))
  }

  function ReceiveResult(t: Tables, h: Hash, b: Block): Tables
    requires OnFrontier(t, b) && b.Receive? && PendingKey(t.frontiers[b.previous], b.source) in t.pending
  {
    var a := t.frontiers[b.previous];
    var info := t.accounts[a];
    var key := PendingKey(a, b.source);
    var amount := t.pending[key].amount;
    Pushed(t, h, b, a, AccountInfo(h, info.repBlock, info.openBlock, Add128(info.balance, amount), info.blockCount + 1)).(
      pending := t.pending - {key},
      representation := AddWeight(t.representation, RepresentativeIn(t.blocks[h := b], info.repBlock), amount))
  }

  function OpenResult(t: Tables, h: Hash, b: Block): Tables
    requires b.Open? && PendingKey(b.account, b.source) in t.pending
  {
    var key := PendingKey(b.account, b.source);
    var amount := t.pending[key].amount;
    Opened(t, h, b, b.account, AccountInfo(h, h, h, amount, 1)).(
      pending := t.pending - {key},
      representation := AddWeight(t.representation, b.representative, amount))
  }

  /** The tables after block `b` has been put on its account, in terms of the lattice. */
  ghost function PushResult(t: Tables, l: Lattice, h: Hash, b: Block, representation: map<Account, Amount>): Tables
    requires Fits(l, h, b) && !b.Open? && PlaceFor(l, h, b).account in t.accounts
  {
    var m := PlaceFor(l, h, b);
    Pushed(t, h, b, m.account, PushedInfo(t, h, m)).(
      pending := ExtendedPending(t.pending, h, b, m), representation := representation)
  }

  /** The functions of the tables compute what the lattice prescribes. */
  lemma SendResultIs(t: Tables, l: Lattice, h: Hash, b: Block)
    requires h !in t.blocks && Fits(l, h, b) && b.Send? && EntryOf(t, l, b.previous)
    ensures OnFrontier(t, b) && PlaceFor(l, h, b).account in t.accounts
    ensures b.balance <= t.accounts[t.frontiers[b.previous]].balance
    ensures var m := PlaceFor(l, h, b);
            SendResult(t, h, b) ==
            PushResult(t, l, h, b, AddWeight(t.representation, RepresentativeIn(t.blocks, m.repBlock), Sub128(0, m.amount)))
  {
  }

  lemma SendV2ResultIs(t: Tables, l: Lattice, h: Hash, b: Block)
    requires h !in t.blocks && Fits(l, h, b) && b.SendV2? && EntryOf(t, l, b.previous)
    ensures OnFrontier(t, b) && PlaceFor(l, h, b).account in t.accounts
    ensures SendV2Result(t, h, b) == PushResult(t, l, h, b, t.representation)
  {
  }

  lemma ChangeResultIs(t: Tables, l: Lattice, h: Hash, b: Block)
    requires h !in t.blocks && Fits(l, h, b) && b.Change? && EntryOf(t, l, b.previous)
    ensures OnFrontier(t, b) && PlaceFor(l, h, b).account in t.accounts
    ensures var p := l.place[b.previous];
            ChangeResult(t, h, b, p.balance) ==
            PushResult(t, l, h, b, AddWeight(AddWeight(t.representation, b.representative, p.balance),
                                             RepresentativeIn(t.blocks, p.repBlock), Sub128(0, p.balance)))
  {
  }

  lemma ReceiveResultIs(t: Tables, l: Lattice, h: Hash, b: Block)
    requires h !in t.blocks && Fits(l, h, b) && b.Receive? && EntryOf(t, l, b.previous)
    requires PendingKey(t.frontiers[b.previous], b.source) in t.pending
    requires t.pending[PendingKey(t.frontiers[b.previous], b.source)].amount == l.place[b.source].amount
    ensures OnFrontier(t, b) && PlaceFor(l, h, b).account in t.accounts
    ensures var m := PlaceFor(l, h, b);
            ReceiveResult(t, h, b) ==
            PushResult(t, l, h, b, AddWeight(t.representation, RepresentativeIn(t.blocks, m.repBlock), l.place[b.source].amount))
  {
  }

  lemma SendResultValid(t: Tables, l: Lattice, h: Hash, b: Block)
    requires Valid(t, l) && Fits(l, h, b) && b.Send? && b.previous in t.frontiers
    ensures OnFrontier(t, b) && b.balance <= t.accounts[t.frontiers[b.previous]].balance
    ensures Valid(SendResult(t, h, b), Accepted(l, h, b))
  {
    FrontierEntry(t, l, b.previous);
    var m := PlaceFor(l, h, b);
    SendMoney(t, l, h, b);
    PushValid(t, l, h, b, AddWeight(t.representation, RepresentativeIn(t.blocks, m.repBlock), Sub128(0, m.amount)));
    SendResultIs(t, l, h, b);
  }

  lemma SendV2ResultValid(t: Tables, l: Lattice, h: Hash, b: Block)
    requires Valid(t, l) && Fits(l, h, b) && b.SendV2? && b.previous in t.frontiers
    ensures OnFrontier(t, b)
    ensures Valid(SendV2Result(t, h, b), Accepted(l, h, b))
  {
    FrontierEntry(t, l, b.previous);
    ChangeMoney(t, l, h, b);
    PushValid(t, l, h, b, t.representation);
    SendV2ResultIs(t, l, h, b);
  }

  lemma ChangeResultValid(t: Tables, l: Lattice, h: Hash, b: Block)
    requires Valid(t, l) && Fits(l, h, b) && b.Change? && b.previous in t.frontiers
    ensures OnFrontier(t, b)
    ensures Valid(ChangeResult(t, h, b, l.place[b.previous].balance), Accepted(l, h, b))
  {
    FrontierEntry(t, l, b.previous);
    var p := l.place[b.previous];
    ChangeMoney(t, l, h, b);
    PushValid(t, l, h, b, AddWeight(AddWeight(t.representation, b.representative, p.balance),
                                    RepresentativeIn(t.blocks, p.repBlock), Sub128(0, p.balance)));
    ChangeResultIs(t, l, h, b);
  }

  lemma ReceiveResultValid(t: Tables, l: Lattice, h: Hash, b: Block)
    requires Valid(t, l) && Fits(l, h, b) && b.Receive? && b.previous in t.frontiers
    ensures OnFrontier(t, b) && PendingKey(t.frontiers[b.previous], b.source) in t.pending
    ensures Valid(ReceiveResult(t, h, b), Accepted(l, h, b))
  {
    FrontierEntry(t, l, b.previous);
    PendingKnows(t, l, PendingKey(l.place[b.previous].account, b.source));
    var m := PlaceFor(l, h, b);
    ReceiveMoney(t, l, h, b);
    PushValid(t, l, h, b, AddWeight(t.representation, RepresentativeIn(t.blocks, m.repBlock), l.place[b.source].amount));
    ReceiveResultIs(t, l, h, b);
  }

  lemma OpenResultValid(t: Tables, l: Lattice, h: Hash, b: Block)
    requires Valid(t, l) && Fits(l, h, b) && b.Open? && b.account !in t.accounts
    ensures PendingKey(b.account, b.source) in t.pending
    ensures Valid(OpenResult(t, h, b), Accepted(l, h, b))
  {
    PendingKnows(t, l, PendingKey(b.account, b.source));
    OpenValid(t, l, h, b);
  }

  /** The entries that the updates for block `b` read are there. */
  predicate Applicable(t: Tables, b: Block) {
    && (b.Open? || OnFrontier(t, b))
    && (b.Send? ==> b.balance <= t.accounts[t.frontiers[b.previous]].balance)
    && (b.Receive? ==> PendingKey(t.frontiers[b.previous], b.source) in t.pending)
    && (b.Open? ==> PendingKey(b.account, b.source) in t.pending)
  }

  /** The tables after block `b` has been added; `balance` is the one that a change moves to its representative. */
  function Result(t: Tables, h: Hash, b: Block, balance: Amount): Tables
    requires Applicable(t, b)
  {
    match b
    case Send(_, _, _) => SendResult(t, h, b)
    case SendV2(_, _) => SendV2Result(t, h, b)
    case Change(_, _) => ChangeResult(t, h, b, balance)
    case Receive(_, _) => ReceiveResult(t, h, b)
    case Open(_, _, _) => OpenResult(t, h, b)
  }

  /** Adding a block that fits keeps the tables those of the lattice. */
  lemma ResultValid(t: Tables, l: Lattice, h: Hash, b: Block)
    requires Valid(t, l) && Fits(l, h, b)
    requires if b.Open? then b.account !in t.accounts else b.previous in t.frontiers
    ensures Applicable(t, b)
    ensures Valid(Result(t, h, b, if b.Open? then 0 else l.place[b.previous].balance), Accepted(l, h, b))
  {
    match b
    case Send(_, _, _) => SendResultValid(t, l, h, b);
    case SendV2(_, _) => SendV2ResultValid(t, l, h, b);
    case Change(_, _) => ChangeResultValid(t, l, h, b);
    case Receive(_, _) => ReceiveResultValid(t, l, h, b);
    case Open(_, _, _) => OpenResultValid(t, l, h, b);
  }

  // ---------------------------------------------------------------------------------------------------------
  // Rolling back one block, as a function of the tables
  // ---------------------------------------------------------------------------------------------------------

  /** The tables after block `h` above `previous` has been undone, in the steps of `rollback_visitor`. */
  function PopResult(t: Tables, h: Hash, previous: Hash, a: Account, repBlock: Hash, balance: Amount,
                     pending: map<PendingKey, PendingInfo>, representation: map<Account, Amount>): Tables
    requires a in t.accounts && t.accounts[a].blockCount > 0 && previous in t.blocks
  {
    var blockCount := t.accounts[a].blockCount;
    var blockInfos := LatestInfos(t.blockInfos, a, previous, balance, blockCount - 1);
    Tables(t.blocks - {h},
           PutSuccessors(t.successors - {h}, previous, t.blocks[previous]),
           (t.frontiers - {h})[previous := a],
           LatestAccounts(t.accounts, a, previous, repBlock, balance, blockCount - 1),
           pending,
           if blockCount % BLOCK_INFO_MAX == 0 then blockInfos - {h} else blockInfos,
           representation)
  }

  /** The block below the last one of a chain already has it as its successor, and its info is already stored. */
  lemma BelowIsStored(t: Tables, l: Lattice, h: Hash)
    requires Indexed(t, l) && h in l.blocks && !l.blocks[h].Open?
    ensures l.blocks[h].previous in t.successors && t.successors[l.blocks[h].previous] == h
  {
    assert Placed(l, h);
    var previous := l.blocks[h].previous;
    assert SuccessorOk(l, previous, t.successors[previous]);
    assert l.place[h].height > l.place[previous].height;
    NoForks(l, h, t.successors[previous]);
  }

  lemma PopResultSuccessors(t: Tables, l: Lattice, h: Hash)
    requires Indexed(t, l) && Removable(t, l, h) && !l.blocks[h].Open?
    ensures PutSuccessors(t.successors - {h}, l.blocks[h].previous, t.blocks[l.blocks[h].previous])
         == (t.successors - {h})[l.blocks[h].previous := NO_HASH]
  {
    assert Placed(l, h);
    var previous := l.blocks[h].previous;
    assert Placed(l, previous);
    if !l.blocks[previous].Open? {
      BelowIsStored(t, l, previous);
    }
  }

  lemma PopResultInfos(t: Tables, l: Lattice, h: Hash)
    requires Indexed(t, l) && Removable(t, l, h) && !l.blocks[h].Open?
    ensures var p := l.place[l.blocks[h].previous];
            var infos := LatestInfos(t.blockInfos, p.account, l.blocks[h].previous, p.balance, p.height);
            (if l.place[h].height % BLOCK_INFO_MAX == 0 then infos - {h} else infos) == t.blockInfos - {h}
  {
    assert Placed(l, h);
    var previous := l.blocks[h].previous;
    assert BlockInfoOk(t.blockInfos, h, l.place[h]);
    assert BlockInfoOk(t.blockInfos, previous, l.place[previous]);
  }

  lemma PopResultIs(t: Tables, l: Lattice, h: Hash, representation: map<Account, Amount>)
    requires Indexed(t, l) && Removable(t, l, h) && !l.blocks[h].Open?
    ensures var p := l.place[l.blocks[h].previous];
            && p.account in t.accounts && t.accounts[p.account].blockCount > 0 && p.account == l.place[h].account
            && l.blocks[h].previous in t.blocks
            && PopResult(t, h, l.blocks[h].previous, p.account, p.repBlock, p.balance,
                         ReducedPending(t.pending, l, h), representation)
               == Popped(t, h, l.blocks[h].previous, l.place[h].account, PoppedInfo(t, l, h)).(
                    pending := ReducedPending(t.pending, l, h), representation := representation)
  {
    FrontierEntry(t, l, h);
    assert Placed(l, h);
    var previous := l.blocks[h].previous;
    assert !Reserved(l, previous);
    PopResultSuccessors(t, l, h);
    PopResultInfos(t, l, h);
  }

  /** The weights after block `h` has been undone. */
  ghost function ReducedWeights(t: Tables, l: Lattice, h: Hash): map<Account, Amount>
    requires Removable(t, l, h)
  {
    match l.blocks[h]
    case Send(_, _, _) =>
      AddWeight(t.representation, RepresentativeIn(t.blocks, l.place[h].repBlock), l.place[h].amount)
    case Receive(_, source) =>
      AddWeight(t.representation, RepresentativeIn(t.blocks, l.place[h].repBlock), Sub128(0, l.place[source].amount))
    case Change(previous, representative) =>
      var p := l.place[previous];
      AddWeight(AddWeight(t.representation, RepresentativeIn(t.blocks, p.repBlock), p.balance), representative, Sub128(0, p.balance))
    case Open(source, representative, _) =>
      AddWeight(t.representation, representative, Sub128(0, l.place[source].amount))
    case SendV2(_, _) => t.representation
  }

  /** Undoing the last block of a chain of several keeps the tables those of the lattice. */
  lemma PopResultValid(t: Tables, l: Lattice, h: Hash)
    requires Valid(t, l) && Removable(t, l, h) && !l.blocks[h].Open? && !l.blocks[h].SendV2?
    ensures var p := l.place[l.blocks[h].previous];
            && p.account in t.accounts && t.accounts[p.account].blockCount > 0 && l.blocks[h].previous in t.blocks
            && Valid(PopResult(t, h, l.blocks[h].previous, p.account, p.repBlock, p.balance,
                               ReducedPending(t.pending, l, h), ReducedWeights(t, l, h)),
                     Remove(l, {h}))
  {
    match l.blocks[h] {
      case Send(_, _, _) => PopSendMoney(t, l, h);
      case Receive(_, _) => PopReceiveMoney(t, l, h);
      case Change(_, _) => PopChangeMoney(t, l, h);
    }
    PopValid(t, l, h, ReducedWeights(t, l, h));
    PopResultIs(t, l, h, ReducedWeights(t, l, h));
  }

  /** The tables after the open block `h` has been undone, in the steps of `rollback_visitor`. */
  function CloseResult(t: Tables, h: Hash, a: Account, pending: map<PendingKey, PendingInfo>,
                       representation: map<Account, Amount>): Tables
  {
    Tables(t.blocks - {h}, t.successors - {h}, t.frontiers - {h}, t.accounts - {a}, pending, t.blockInfos, representation)
  }

  lemma CloseResultValid(t: Tables, l: Lattice, h: Hash)
    requires Valid(t, l) && Removable(t, l, h) && l.blocks[h].Open?
    ensures Valid(CloseResult(t, h, l.place[h].account, ReducedPending(t.pending, l, h), ReducedWeights(t, l, h)), Remove(l, {h}))
  {
    CloseValid(t, l, h);
  }
}
