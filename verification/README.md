# Verification of the RaiBlocks ledger, the OpenCL C++ bindings and bootstrap.py

Three parts of the repository keep state whose correctness cannot be read off one function. This project models them in
Dafny and proves what they keep over every input, every run and every interleaving.

**The ledger** (`rai/secure.cpp`). `Ledger.dfy` is a class with the seven tables of the block store as fields; `Process` adds a
block, `Rollback` takes one off, and the walks (`Balance`, `AmountOfSource`, `Representative`, `AccountOfBlock`) read along the
chains. `Lattice.dfy` defines, without any table, what the tables stand for: the set of accepted blocks, for each of them its
account, height, balance and representative block, and which send was collected by which block. `Store.dfy` says when tables
hold a lattice (`Valid`): all indexes agree with the chains, the pending table holds exactly the sends nobody has collected, the
weights are the balances delegated, and balances and pending amounts together make up the genesis amount, so that no 128-bit sum
wraps around. `LedgerAnswers.dfy` says of the stored blocks alone what is accepted, what each refusal reports and
which walks and calls end, `LedgerAgreement.dfy` that nodes with the same blocks agree in everything, and `LedgerTheorems.dfy`
draws the other conclusions for the whole ledger. Two facts of the code show in the results: the
balance walk and the rollback visitor do nothing at a block of the second send kind, so the loops around them never end there.
The model has an outcome for these inputs, the theorems say exactly which they are (`WalkEndsExactlyWhen`,
`ReversibleExactlyWhen`), that all calls return in a ledger without such blocks, and `CallsThatNeverReturn` comes upon them from a
new ledger.

**The OpenCL bindings** (`CL/cl.hpp`, `CL/cl2.hpp`). `DefaultOnce.dfy` is the compare-and-swap protocol that initialises the
default context and the default queue of version 1.x, as a state machine with one shared access per step and any number of
callers; `DefaultProgress.dfy` shows that it ends, and `InitialWords.dfy` what happens from other initial words.
`DefaultChain.dfy` is the `call_once` protocol of version 2.0 over Platform, Context, Device and CommandQueue with
`getDefault` and `setDefault`. `Ownership.dfy` is reference counting through `Wrapper<T>` and `Wrapper<cl_device_id>`;
`Queries.dfy` compares the two ways in which a query fills a vector of wrappers. `FixedVector.dfy` and `HeapString.dfy` are
`cl::vector` and `cl::string` over arrays, and `Version.dfy` is the version parser.

**bootstrap.py**. `Bootstrap.dfy` is the extraction of brace blocks, the numbered files and the index page, with the directory as
a map from file name to content.

`Sums.dfy` (sums over maps) and `Decimals.dfy` (decimal notation) are shared.

## Model

| member | source | states |
|---|---|---|
| Ledger.Ledger.constructor | rai/secure.cpp:2815-2824 | the tables with the genesis block alone hold the lattice of that block; its account has 2^128 - 1, and as much weight |
| Ledger.Ledger.Process | rai/secure.cpp:2211-2216 | the answer is the one the lattice demands (`Verdict`, which knows no table); an accepted block is added to the lattice and the tables hold the larger lattice; otherwise no table changes |
| Ledger.Ledger.Check | rai/secure.cpp:2465-2689 | the tests over the tables answer old, gap, fork, signature, overspend, unreceivable and so on exactly as the lattice demands, in the order of the source |
| Ledger.Ledger.CheckOnTop | rai/secure.cpp:2465-2482 | the tests of a block that needs only its predecessor: old, gap, fork, signature, progress |
| Ledger.Ledger.CheckReceive | rai/secure.cpp:2596-2629 | the tests of a receive, among them that its source is an uncollected send to this account |
| Ledger.Ledger.CheckOpen | rai/secure.cpp:2647-2676 | the tests of an open |
| Ledger.Ledger.Apply | rai/secure.cpp:2465-2689 | the updates return unless a change block needs a balance walk that never ends, and then the tables hold the lattice with the block on top |
| Ledger.Ledger.ApplySend | rai/secure.cpp:2502-2542 | all seven tables after an accepted send |
| Ledger.Ledger.ApplySendV2 | rai/secure.cpp:2544-2594 | all seven tables after an accepted send of the second kind |
| Ledger.Ledger.ApplyChange | rai/secure.cpp:2465-2500 | all seven tables after an accepted change, and when its balance walk ends |
| Ledger.Ledger.ApplyReceive | rai/secure.cpp:2596-2645 | all seven tables after an accepted receive |
| Ledger.Ledger.ApplyOpen | rai/secure.cpp:2647-2689 | all seven tables after an accepted open |
| Ledger.Ledger.ChangeLatest | rai/secure.cpp:2389-2423 | afterwards the account ends at the given block, with its count, balance and representative block and with the open block it had (or this one if it was new), or is gone if no block is given; the block has an info with account and balance if its height is a multiple of 32; no other account and no other info changes |
| Ledger.Ledger.VisitForBalance | rai/secure.cpp:1984-2040 | one visit keeps the running total plus the balance still to be walked, moves to an older block, and keeps whether the walk ends |
| Ledger.Ledger.Balance | rai/secure.cpp:2160-2177 | the walk returns the balance of the block, or never returns, exactly when a block of the second send kind lies on its way |
| Ledger.Ledger.AmountOfSource | rai/secure.cpp:1932-1937 | the amount of a send, or that it never returns |
| Ledger.Ledger.AmountOfBlock | rai/secure.cpp:1932-1970 | for every block, the difference of the account's balances before and after it; that the walk never returns; or, at a block of the second send kind, that no result is set |
| Ledger.Ledger.Representative | rai/secure.cpp:594-641 | the walk finds the last block that names a representative |
| Ledger.Ledger.AccountOfBlock | rai/secure.cpp:2289-2314 | following successors to a frontier or to a block with an info finds the account of the block |
| Ledger.Ledger.Undo | rai/secure.cpp:2043-2136 | undoing the last block of a chain returns exactly when it is reversible, and then the tables hold the lattice without it |
| Ledger.Ledger.UndoSend | rai/secure.cpp:2054-2077 | all seven tables after undoing a pending send |
| Ledger.Ledger.UndoReceive | rai/secure.cpp:2081-2101 | all seven tables after undoing a receive: its source is pending again with the right sender and amount |
| Ledger.Ledger.UndoOpen | rai/secure.cpp:2102-2112 | all seven tables after undoing an open |
| Ledger.Ledger.UndoChange | rai/secure.cpp:2113-2133 | all seven tables after undoing a change |
| Ledger.Ledger.MakePending | rai/secure.cpp:2054-2063 | rolling back the receiver until the send is pending again takes off only dependents of the send, or gets stuck only if some dependent cannot be undone |
| Ledger.Ledger.Visit | rai/secure.cpp:2043-2136 | at the last block of a chain: returns exactly when all dependents are reversible, and then exactly these are gone; at the genesis block an assertion fails |
| Ledger.Ledger.Rollback | rai/secure.cpp:2273-2286 | for every stored block: never returns if and only if some dependent is not reversible; otherwise it returns, exactly the dependents are gone, the rest of the lattice is as before and the tables hold it, except that at the genesis block an assertion fails in the end |
| Lattice.NoForks | rai/secure.cpp:2465-2689 | in every ledger no two blocks follow the same block and no account is opened twice |
| Lattice.NoDoubleSpend | rai/secure.cpp:2596-2689 | in every ledger no send is collected twice, and only by its destination |
| Lattice.DependsLater | rai/secure.cpp:2273-2286 | dependents of a block were accepted later, so rolling back ends |
| Lattice.RemoveHead | rai/secure.cpp:2043-2136 | taking off the last block of a chain, unless it is a collected send, leaves well-formed chains and receipts |
| Lattice.RemoveKeepsDependence | rai/secure.cpp:2273-2286 | while blocks are taken off, what is left depends on the same blocks as before |
| Lattice.PartlyAll | rai/secure.cpp:2273-2286 | once the block itself is gone, exactly its dependents are |
| Lattice.PartlyStuck | rai/secure.cpp:2273-2286 | a dependent that cannot be taken off means that the block cannot be rolled back |
| Store.MoneyOut | rai/secure.cpp:2502-2542 | sending moves the amount from balance and weight to pending; the total stays the genesis amount |
| Store.MoneyIn | rai/secure.cpp:2596-2645 | receiving moves it from pending to balance and weight, without wrapping around |
| Store.MoneyOpens | rai/secure.cpp:2647-2689 | opening does so for a new account |
| Store.MoneyBack | rai/secure.cpp:2102-2112 | undoing an open gives all of it back to pending |
| Store.Delegation | rai/secure.cpp:2465-2500 | a change moves the whole balance from one representative's weight to another's, even when they are the same |
| Store.ResultValid | rai/secure.cpp:2465-2689 | for every kind of block, the tables after the updates hold the lattice with the block on top |
| Store.PopResultValid | rai/secure.cpp:2054-2133 | the tables after undoing a block that has one below it hold the lattice without it |
| Store.CloseResultValid | rai/secure.cpp:2102-2112 | the tables after undoing an open hold the lattice without it |
| LedgerAnswers.AcceptedExactlyWhen | rai/secure.cpp:2465-2689 | a block is accepted if and only if it is new, its owner (the opened account, or the account of the block below) is among the signers, no stored block follows its predecessor or opens its account, that account is not zero, the collected send is stored, sent to the owner and collected by no stored block, a send leaves no more than there was, and a change needs no endless walk |
| LedgerAnswers.RefusedExactlyWhen | rai/secure.cpp:2465-2689 | for each refusal, exactly the facts of the stored blocks that it reports, in the order of the tests |
| LedgerAnswers.AcceptedMeans | rai/secure.cpp:2465-2689 | an accepted block is stored in the chain of its owner, one higher, with the balance it states, keeps or collects; nothing else moves |
| LedgerAnswers.RemovedMeans | rai/secure.cpp:2273-2286 | a rollback leaves the other blocks, their places and their receipts as they were |
| LedgerAnswers.HeadExactlyWhen | rai/secure.cpp:1180-1203 | the frontier of a chain is the block that no stored block follows |
| LedgerAnswers.WalkEndsExactlyWhen | rai/secure.cpp:1988-2040 | the balance walk ends if and only if, down the chain past receives and changes only, there is a send, an open, or a receive or change whose height is a multiple of 32, and the sends collected on the way have amounts |
| LedgerAnswers.ReversibleExactlyWhen | rai/secure.cpp:2043-2136 | a block can be undone if and only if it is not of the second send kind and the walks from the block below and from below the collected send end |
| LedgerAnswers.AmountEndsExactlyWhen | rai/secure.cpp:1932-1970 | the same for the amount of a block |
| LedgerAnswers.StuckAtSecondKind | rai/secure.cpp:1995-2001 | a walk that never ends has come upon a block of the second send kind on which its start depends |
| LedgerAnswers.IrreversibleBySecondKind | rai/secure.cpp:2043-2136 | the same for a block that cannot be undone |
| LedgerAnswers.EverythingReturns | rai/secure.cpp:2160-2286 | in a ledger without such blocks every walk ends, every block but the first can be rolled back and every answer comes |
| LedgerAnswers.CallsReturn | rai/secure.cpp:2160-2286 | on such a ledger balance, process and rollback return |
| LedgerAnswers.RepresentativeIsLastNamed | rai/secure.cpp:594-641 | the representative block is the last open or change up to the block in its chain |
| Agreement.BlocksDetermineLattice | rai/secure.cpp:2465-2689 | the blocks alone fix account, height, balance, representative block, amount sent and receipt of every block; only the times are left open |
| Agreement.TablesDetermined | rai/secure.cpp:2465-2689 | two nodes with the same blocks, accepted in whatever orders, agree in every table |
| Agreement.AnswersAgree | rai/secure.cpp:2211-2216 | they give the same answer to every further block |
| Agreement.RollbacksAgree | rai/secure.cpp:2273-2286 | they take off the same blocks in every rollback, and it returns for both or for neither |
| LedgerTheorems.RollbackUndoesProcess | rai/secure.cpp:2211-2286 | a store from which a block that has just been processed was rolled back has every table as before |
| LedgerTheorems.NewReversible | rai/secure.cpp:2043-2136 | such a rollback returns if and only if the block is not of the second send kind and the walks from the block below and from the collected send end, all in terms of the ledger before |
| LedgerTheorems.ProcessAndRollback | rai/secure.cpp:2211-2286 | processing and rolling back at once: the answer, when it returns, and that then every table is as before |
| LedgerTheorems.ChangeNeverReturns | rai/secure.cpp:2465-2500 | every well-signed change on top of a block of the second send kind keeps process from returning |
| LedgerTheorems.RollbackNeverReturns | rai/secure.cpp:2078-2080 | no block that one of the second send kind depends on, itself included, can be rolled back |
| LedgerTheorems.CallsThatNeverReturn | rai/secure.cpp:2544-2594 | both happen from a new ledger: one accepted block, then a process call and a rollback that never return |
| LedgerTheorems.WithoutDependents | rai/secure.cpp:2273-2286 | without a block and its dependents the lattice is well-formed, its receipts included |
| LedgerTheorems.DependentsMustGo | rai/secure.cpp:2273-2286 | nothing less would do: every well-formed lattice without the block lacks all its dependents |
| LedgerTheorems.WeightsAddUp | rai/secure.cpp:2324-2332 | the representatives' weights add up to the balances |
| LedgerTheorems.VotesAndPendingAddUp | rai/secure.cpp:2211-2286 | in every ledger the weights plus the pending amounts are 2^128 - 1: no block and no rollback makes or destroys money or votes |
| DefaultOnce.InvReachable | CL/cl.hpp:2646-2692 | every reachable state keeps the protocol's invariant |
| DefaultOnce.MutualExclusion | CL/cl.hpp:2646-2692 | in every interleaving of any number of callers at most one is inside each initialiser |
| DefaultOnce.WordsAdvance | CL/cl.hpp:1054-1074 | the state words only move from 1 to 2 and from 2 to 4 |
| DefaultOnce.ReturnsAgree | CL/cl.hpp:5592-5651 | nobody returns before publication; all return the published value and error, which some caller's constructor made; the queue was made on the published context or reports its error |
| DefaultOnce.PublishedIsForever | CL/cl.hpp:2652-2690 | after publication value and error never change, whatever runs |
| DefaultOnce.InitialisedOnce | CL/cl.hpp:2646-2692 | each initialiser is entered once if anything was published and never more |
| DefaultProgress.NoDeadlock | CL/cl.hpp:5592-5651 | while some call is under way, some call under way can make a step that is not a failed spin test |
| DefaultProgress.MovesAreBounded | CL/cl.hpp:5592-5651 | whatever the interleaving, there are at most fifteen non-spinning steps per call |
| DefaultProgress.EveryCallReturns | CL/cl.hpp:5592-5651 | under every fair schedule every call returns |
| InitialWords.TwoWalkIn | CL/cl.hpp:2813-2821 | from a word that is not 1 and has neither bit 2 nor bit 4, such as the 0 of a static atomic without initialiser, two callers can both be inside |
| InitialWords.TwoWalkInFromZero | CL/cl.hpp:2813-2821 | in particular from 0 |
| InitialWords.ExclusiveExactlyWhen | CL/cl.hpp:2811-2824 | over all initial words: every interleaving is exclusive if and only if the word is 1 or has bit 2 or 4, or there is at most one call |
| InitialWords.OneAtATimeFromZero | CL/cl.hpp:2813-2821 | from 0, calls that do not overlap still initialise once and agree |
| InitialWords.AloneReturns | CL/cl.hpp:2646-2692 | from 0, a call that runs while no other is under way returns after fifteen steps at most |
| DefaultChain.ChainInvReached | CL/cl2.hpp:2534-2574 | every reachable state of the four once-flags keeps the protocol's invariant |
| DefaultChain.CallsAgree | CL/cl2.hpp:2764-2790 | each call, of getDefault or setDefault, returns what the class holds from then on, which some call was given or built on the lower defaults |
| DefaultChain.FirstCallDecides | CL/cl2.hpp:1959-1982 | the first call to enter decides the default, whatever runs afterwards; a setDefault that comes first decides it with success |
| DefaultChain.FirstCallMakes | CL/cl2.hpp:2534-2574 | class by class, what the first call makes: the given object, the runtime's platform or null with its error, the context on the settled platform, the first device of the settled context or its error, the queue on the settled context and device or the context's error |
| DefaultChain.ContextOnGivenPlatform | CL/cl2.hpp:2255-2260 | a context that getDefault makes after setDefault came first at Platform is built on the given platform |
| DefaultChain.SettledIsForever | CL/cl2.hpp:2237-2260 | a settled default never changes |
| DefaultChain.ErrorsPropagate | CL/cl2.hpp:6580-6614 | without setDefault: the platform is the runtime's, the context was built on it, and a failed context makes device and queue report its error; otherwise the device is the context's first and the queue was built on both |
| DefaultChain.NoReentry | CL/cl2.hpp:2887-2914 | no call comes to a once-flag that it holds itself |
| DefaultChain.SomeCallGoesOn | CL/cl2.hpp:6884-6910 | waiting strictly descends CommandQueue, Device, Context, Platform, so it ends at a call that can go on |
| DefaultChain.EveryDefaultCallReturns | CL/cl2.hpp:6884-6910 | under every fair schedule every mix of getDefault and setDefault calls returns |
| Ownership.Program.constructor | CL/cl2.hpp:1583-1593 | a program starts balanced: no wrappers, no objects |
| Ownership.Program.Create | CL/cl2.hpp:1583-1593 | an object that the runtime makes has one reference, owned outside |
| Ownership.Program.Default | CL/cl2.hpp:1709-1711 | an empty wrapper owns nothing |
| Ownership.Program.Wrap | CL/cl2.hpp:1713-1722 | an owned wrap takes over an outside reference, a retaining one adds its own; counts stay equal to wrappers plus outside owners and the flag matches the object |
| Ownership.Program.Destroy | CL/cl2.hpp:1724-1727 | the wrapper goes with its reference; the balance is kept and nothing is freed twice |
| Ownership.Program.Copy | CL/cl2.hpp:1729-1734 | the copy adds exactly one to the count of a countable object, although it recomputes the flag, and touches no other count |
| Ownership.Program.Move | CL/cl2.hpp:1736-1742 | the reference moves, no count changes |
| Ownership.Program.CopyAssign | CL/cl2.hpp:1744-1753 | the balance is kept for every aliasing, self-assignment and two wrappers of one object included |
| Ownership.Program.MoveAssign | CL/cl2.hpp:1755-1765 | the balance is kept and the source is left empty, except in self-assignment |
| Ownership.Program.RawAssign | CL/cl2.hpp:1767-1773 | takes over an outside reference after releasing its own |
| Ownership.Program.Query | CL/cl2.hpp:1037-1054 | a query leaves the outside owners as they were: its wrapper owns one reference of its own |
| Ownership.CountsExactly | CL/cl2.hpp:1690-1808 | the count of an object that is not reference countable is that of its outside owners; of every other one it is these plus the number of wrappers with its handle |
| Ownership.SurvivesRelease | CL/cl2.hpp:1619-1644 | although assignment releases before it retains, the object to be retained is alive in between |
| Ownership.OwnerKeepsAlive | CL/cl2.hpp:1602-1605 | the object of a wrapper that counts is alive |
| Ownership.AliveExactlyWhileOwned | CL/cl2.hpp:1583-1678 | an object has been freed if and only if no wrapper and nobody outside owns it |
| Queries.QueryByAssign | CL/cl.hpp:1162-1190 | for every earlier content and every list of handles, nulls and duplicates included: the vector has the handles of the list with the right flags, and the count of every countable object is what others own plus its occurrences in the list; on an error of the runtime nothing changes and the first error is returned |
| Queries.QueryByMove | CL/cl2.hpp:940-969 | the same result, in the same words, from resize and moved-in retaining temporaries |
| Queries.MoveIn | CL/cl2.hpp:962-966 | moving a retaining temporary into an element replaces what the element held and keeps the counts |
| FixedVector.Vector.constructor | CL/cl.hpp:694-696 | a new vector is empty |
| FixedVector.Vector.PushBack | CL/cl.hpp:726-734 | appends; a full vector stays as it is |
| FixedVector.Vector.PopBack | CL/cl.hpp:740-748 | drops the last element; an empty vector stays as it is |
| FixedVector.Vector.Clear | CL/cl.hpp:715-720 | the vector is empty |
| FixedVector.Vector.Fill | CL/cl.hpp:768-774 | as many copies of the value as were asked for and fit |
| FixedVector.Vector.Resize | CL/cl.hpp:841-860 | the new size, the old elements below it and the fill above them; a size above the capacity changes nothing |
| FixedVector.Vector.Assign | CL/cl.hpp:893-901 | the first N elements of the range, in order |
| FixedVector.Vector.AssignRange | CL/cl.hpp:893-997 | the part between two iterators of any vector, even of the one that is assigned to, read while it is overwritten |
| FixedVector.Vector.CopyAssign | CL/cl.hpp:783-796 | the contents of the other vector, or its own in self-assignment |
| FixedVector.Vector.Copy | CL/cl.hpp:754-760 | the contents of the other vector, although the size is set before any element |
| FixedVector.Equals | CL/cl.hpp:802-814 | true if and only if the sequences are equal |
| FixedVector.NewVector | CL/cl.hpp:754-774 | a constructed vector joins the live ones without changing them |
| FixedVector.Change | CL/cl.hpp:685-901 | every operation on one of several vectors has its effect on that vector's sequence and on no other |
| FixedVector.Perform | CL/cl.hpp:685-901 | every sequence of operations on any number of vectors does to them what it means for independent sequences (`Meaning`) |
| FixedVector.EffectsSpelledOut | CL/cl.hpp:715-901 | for each operation, element by element, what it means for the sequence it changes, and that no other changes |
| FixedVector.NeverLonger | CL/cl.hpp:685-901 | no such meaning is longer than N |
| FixedVector.OverfillKeepsFirst | CL/cl.hpp:726-734 | the meaning of pushing any list is the first N of old contents and list |
| FixedVector.PushAll | CL/cl.hpp:726-734 | the same of the vectors |
| FixedVector.PopUndoesPush | CL/cl.hpp:726-748 | in meaning, popping takes back a push if and only if there was room for it (or N is 0) |
| FixedVector.PushAndPop | CL/cl.hpp:726-748 | the same of the vectors |
| HeapString.Text.constructor | CL/cl.hpp:491-493 | an empty string has no buffer |
| HeapString.Text.FromBuffer | CL/cl.hpp:506-520 | the given characters, NULs included, in a new buffer of size + 1 that ends in NUL |
| HeapString.Text.FromC | CL/cl.hpp:527-540 | the characters before the first NUL; empty from NULL or an empty C string |
| HeapString.Text.Resize | CL/cl.hpp:542-573 | keeps the common prefix, fills with zeros, ends in NUL, frees the old buffer once; no buffer exactly at size 0 |
| HeapString.Text.CopyAssign | CL/cl.hpp:591-620 | the contents of the other string in a buffer of its own; the old buffer is freed before the other is read, which is safe because they differ |
| HeapString.Text.Copy | CL/cl.hpp:626-631 | as copy assignment, on a new string |
| HeapString.Text.Set | CL/cl.hpp:580-583 | one character changes |
| HeapString.Text.Get | CL/cl.hpp:575-578 | the character at a position |
| HeapString.Text.Destroy | CL/cl.hpp:634-638 | the buffer is freed |
| HeapString.Text.CStr | CL/cl.hpp:649 | the contents and a NUL, also for an empty string |
| HeapString.CStrRoundTrip | CL/cl.hpp:527-649 | a string built from another's C string equals it if and only if that has no NUL inside; otherwise it is cut at the first |
| HeapString.ResizeText | CL/cl.hpp:542-573 | among live strings: one changes, no two share a buffer, and the heap holds their buffers and nothing else |
| HeapString.WriteText | CL/cl.hpp:580-583 | the same for a write through an index |
| HeapString.AssignText | CL/cl.hpp:591-620 | the same for assignment between any two of them, self-assignment included |
| HeapString.NewText | CL/cl.hpp:491-493 | the same for an empty string |
| HeapString.NewFromBuffer | CL/cl.hpp:506-520 | the same for construction from characters |
| HeapString.NewFromC | CL/cl.hpp:527-540 | the same for construction from a C string |
| HeapString.NewCopy | CL/cl.hpp:626-631 | the same for copy construction |
| HeapString.DropText | CL/cl.hpp:634-638 | the same for destruction: no leak and no double free |
| Version.GetVersion | CL/cl.hpp:1731-1748 | the two numbers in the string, packed into 32 bits, for versions below 32768.65536 |
| Version.PacksBits | CL/cl.hpp:1747 | shifting the major number by sixteen and or-ing the minor number gives the word that the gates compare |
| Version.ParsesWhatIsPrinted | CL/cl.hpp:1731-1748 | every printed version is such a string, whatever follows the space or NUL, and its numbers are the printed ones |
| Version.HoldsOneVersion | CL/cl.hpp:1731-1748 | no string holds two versions |
| Version.PackedOrder | CL/cl.hpp:1872-1882 | packed words order as versions do; both gates, above 1.1 and at least 0x10002, mean at least 1.2 |
| Bootstrap.FindsTheBlocks | bootstrap.py:9 | from blocks separated by texts without an opening brace, exactly these blocks are found, in order |
| Bootstrap.TakesApart | bootstrap.py:9 | every input is its blocks and such texts, with nothing left that holds a block |
| Bootstrap.FileNameInjective | bootstrap.py:14 | different blocks go to different files, and none to the index |
| Bootstrap.PageInjective | bootstrap.py:11-21 | the index page tells the number of blocks |
| Bootstrap.NamesLiterally | bootstrap.py:13-19 | what file names and images look like |
| Bootstrap.ImagesInOrder | bootstrap.py:12-19 | the images stand on the page in the order of the blocks |
| Bootstrap.WriteBlocks | bootstrap.py:8-21 | the numbered files hold the blocks, the index shows one image each in order, and all other files stay |
| Bootstrap.RoundTrip | bootstrap.py:8-21 | reading back as many numbered files as the index shows gives the list of blocks and no other |

## Left out

- Ledger.Ledger.Process: hashing and signatures are parameters (the hash of the block and the set of accounts whose signature it
  bears); the hash of an accepted block is assumed to be none of the special values 0, 1 and the genesis account, which the
  source uses as marks.
- Ledger.Ledger.Apply: a block that names the zero account as representative, at which an assertion of the source fails, is
  accepted like any other; the account and amount reported beside the result code are not part of this model.
- Ledger.Ledger.ApplySendV2: the code stored for the account and the virtual machine that loads it are not part of this model.
- Ledger.Ledger.Rollback: the source has no test for the genesis block; the rollback fails an assertion of `ledger::account` when
  it looks up the account of the genesis source. What a build without assertions does from there on is not modelled.
- Ledger.Ledger.ChangeLatest: the checksum and the modification time of an account are not part of this model.
- The rest of rai/: votes and elections, the network, bootstrapping, the wallet, work and the RPC server.
- DefaultOnce: builds with exceptions, where a throwing initialiser leaves the word at 2, and weak memory.
- DefaultChain: the search for a platform inside the context's construction is one answer of the runtime.
- Ownership.Program.Wrap: releases that cascade inside the runtime, failing retains and writes through the mutable call operator
  are not modelled; a raw handle comes with an outside reference.
- Queries.QueryByAssign: retains succeed; the return in the middle of the loop after a failing one is not modelled.
- FixedVector.Vector.PushBack: elements are plain values, so destroying one does nothing; builds with exceptions and the
  non-const `back`, which reads one past the last element, are not part of this model.
- HeapString.Text.FromBuffer: the source must not be NULL; with NULL the comment promises an empty string and the code copies.
- HeapString.Text.Set: the caller writes inside the string; the operator itself checks nothing.
- Failing allocations in `cl::string`.
- Version.GetVersion: larger numbers overflow a signed 32-bit accumulator, and a string without a dot is read past its end; both
  are undefined in the source.
- Bootstrap.WriteBlocks: the images that `qrencode` makes, the creation of the directory and failing writes.
- SVM traits and allocation, `Program::getBuildInfo` and the platform search of the `Context` constructor.
- 1.x `createKernels` and `getDevices`, images, interoperability, kernel functors and the forwarding `enqueue` functions.
