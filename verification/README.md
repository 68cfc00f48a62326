# Verification of the doslink node

A model in Dafny of the parts of doslink that decide what counts as valid, and
proofs about them: the chain of blocks with its unspent outputs, the block
index and header rules, header exchange between peers, the virtual machine with
its programs, builder and assembler, the validation of transactions, the
wallet's reservation of outputs, and the field arithmetic of SM2.

`dafny verify dfyconfig.toml` checks the whole project.

## What is modelled

**Chain and unspent outputs.** `UtxoView` is the view that blocks are applied to
and detached from, `UtxoStore` its lazy loading and saving. `Ledger` is an
independent reference: every output is a small state machine of its own, driven
by the actions of the blocks. `UtxoStore` and `ViewRuns` show that a view run
over a store simulates the ledger, so that one lazily loaded view saved once is
as good as a fresh view per block. `ViewEffects` reads off a transaction what
applying and detaching it does to every entry, and when it is refused. `BlockTree` and `BlockIndex` hold the block
nodes and the main chain array, `ChainModel` the chain as a state machine
(saving blocks, adopting orphans, fork choice, connecting and reorganising), and
`Chain` the same as objects that change in place, each method proved against its
function. `Rewind` says on the ledger exactly when detaching some blocks and
attaching others leads to the replay of the new history. `ChainRuns` has the
results over all runs: exactly when the stored outputs mean the replay of the
main chain, tips only rise, and in such states no output is spent twice and
coinbase outputs mature; `PhantomRun` is a run that leaves them. `BlockEffects`
restates this on the transactions of the blocks themselves. `Adoption` says
exactly which orphans a block brings in and where the chain moves, and `Arrival`
that the tree of blocks does not depend on the order in which they arrive.
`HeaderRules` has the header check with past median time, bits and seeds,
`IndexLoad` the reload of the index from its keys, `Difficulty` the compact
targets and retargeting, `Locator` the block locator.

**Virtual machine.** `Machine` is the state and its cost accounting; `StackOps`,
`NumericOps`, `SpliceOps`, `CryptoOps` and `ContextOps` are the instructions as
functions on it, all of which carry the same cost law as their contract;
`Interpreter` is steps, runs and child machines; `VirtualMachine` is the machine
as an object, proved against `Interpreter`. `Opcodes`, `DataOpcodes` and
`ControlOpcodes` state for each opcode, by its number, what it does to the stack,
what it costs at once and at the end, and when it fails. `GasSafety` has the accounting over
all runs; `Frugality`, `Termination` and `Divergence` decide when the loop of the
machine comes to an end. `Ops` and `Pushdata` parse and encode instructions,
`Layout` is programs under construction with jump addresses filled in later, used
by `ProgramBuilder` and `Assembler`; `Scripts` is the standard programs and their recognisers;
`WitnessScript` and `WitnessRun` follow a quorum of signatures through the whole
pay-to-script-hash path, and `WitnessSafety` goes back from acceptance to the
signatures; `AssembledText` says what an assembled program is, token by token;
`Reassembly` has the lock-step theorem, and `Recoding`
what it means for a program that is the code of its own context.

**Transactions and wallet.** `TxEntries`, `MapTx`, `TxValidation` and `TxChecks`
are the entry graph, its construction and its validation. `Utxos`, `UtxoKeeper`
and `TxBuilder` are coin selection, reservations and the rollback of a failed
build. `Sm2Field` is the limb arithmetic of the SM2 prime field, `Sm2Reduce` its
reduction of products.

## Conventions

- Hashes are natural numbers; that different contents have different ids is what
  a hash function is assumed to give. Equal contents have equal ids.
- Hash functions, signatures, proof of work, block validation, the contract
  machine and the verdict of a program (where transactions are validated) are
  parameters. Nothing is assumed of them except where a row says so.
- Errors are values. Where the source panics, the model has an outcome of its
  own.
- A run of the machine takes `fuel`, because the source's loop has no bound of
  its own. Running out of it is a separate outcome. `Termination` shows for which
  contexts it cannot happen, `Divergence` that for others it happens with any
  fuel, and `GasSafety` that fuel changes nothing else.
- Locked methods are single steps.

## Results that are not what one might expect

- A program can run for ever. A child machine of CHECKPREDICATE that fails to pay
  its last charge hands back the cost of an item nobody paid for
  (`Divergence.UnpaidChildRaisesWorth`), and a loop that starts such children
  never uses up its gas if its program is long enough
  (`Divergence.LoopNeverEnds`). Where the other fields of the context are short,
  all programs of n bytes end exactly if n is at most 109 or more than the parser
  accepts (`Divergence.EndsExactly`), and in the validation of transactions they
  always are (`Divergence.ValidationEndsExactly`); a program without the byte of
  CHECKPREDICATE always ends within gasLimit steps (`Termination.NoChildrenEnds`).
- Detaching a block right after attaching it restores the outputs exactly when
  the block spends none of the outputs it creates
  (`ChainRuns.DetachUndoesAttachExactly`); otherwise a phantom output stays
  behind (`ChainRuns.ChainedBlockLeavesPhantom`). Along a run the stored outputs
  mean the replay of the main chain if and only if every reorganisation makes up
  for such outputs: the blocks it attaches create them before anything else
  (`ChainRuns.RunGoodExactly`). Otherwise the main chain can come to spend an
  output that it never created, or one output twice (`PhantomRun.PhantomIsSpent`).
- Two inputs that spend one output become one entry, because the id of a spend
  is hashed from the output alone. A mapped transaction agrees with itself
  exactly if no two inputs have the same entry and a coinbase comes first
  (`MapTx.MappedTiedExactly`); any other is refused
  (`MapTx.DisorderlyIsRefused`).
- An output that is stored and unconfirmed at once is offered twice, and can be
  reserved twice over in one reservation (`Utxos.SelectedTwice`). Selections are
  free of this exactly if no two outputs on offer have the same id
  (`Utxos.HonestExactly`, `UtxoKeeper.OfferedOnceExactly`).
- Reserving an amount of zero panics exactly if there is a free output
  (`UtxoKeeper.UtxoKeeper.Reserve`); a build that panics keeps what it has
  reserved until it expires (`TxBuilder.Build`).
- Assembling a disassembly gives the same bytes exactly if all pushes were in
  their shortest form (`Recoding.ReassemblesToItself`). Otherwise a program that
  looks at its own bytes can be judged differently
  (`Recoding.MeasuringJudgedDifferently`); programs that do not are judged alike
  (`Recoding.ReassembledVerifiesAlike`).
- The reduction of products in the SM2 field borrows from limbs that may have
  nothing to lend. The result is right if and only if every such debt is settled
  at the end (`Sm2Reduce.ReducedExactly`), and always if five digits of the
  product are not zero (`Sm2Reduce.RoomyIsRight`). There are two small elements
  whose product comes out wrong (`Sm2Reduce.SmallProductIsWrong`), and both arise
  from numbers (`Sm2Reduce.SmallArises`).
- MOD follows the sign of the divisor and DIV drops the fraction, so they belong
  together exactly when there is no rest or the signs agree
  (`NumericOps.ModuloLaw`).
- The comment above the pop of the machine suggests that popping gives cost
  back; the code charges for it, and the model follows the code.

## Model

| member | source | states |
|---|---|---|
| `UtxoView.UtxoViewpoint.ApplyTransaction` | protocol/state/utxo_view.go:23-63 | spends the inputs and creates the outputs in the view, or fails with the error of the first output that is missing, spent or an immature coinbase |
| `ViewEffects.ApplyTxExactly` | protocol/state/utxo_view.go:23-63 | a transaction is applied if and only if each output it spends is one of its entries, present, not spent, ten blocks old if it is a reward, and listed once; then exactly those are marked, and exactly its outputs are entered at the height of the block, as rewards if and only if it has the id of the first transaction |
| `ViewEffects.DetachTxExactly` | protocol/state/utxo_view.go:83-117 | a transaction is detached if and only if each output it spends is one of its entries, listed once, and not present unspent; then exactly those are revived, as plain outputs of height 0 if they were not there, and its outputs are marked spent |
| `BlockEffects.BlockReadsExactly` | protocol/state/utxo_view.go:23-76 | the actions of a block are exactly the spends and creations its transactions list; with different transaction ids the outputs of the first one, and of no other, are rewards of the height of the block |
| `UtxoView.UtxoViewpoint.Apply` | protocol/state/utxo_view.go:65-76 | applies all transactions of a block, or fails as the first failing one does |
| `UtxoView.UtxoViewpoint.CanSpend` | protocol/state/utxo_view.go:78-81 | true exactly for entries that are present and not spent |
| `UtxoView.UtxoViewpoint.DetachTransaction` | protocol/state/utxo_view.go:83-117 | unspends the inputs and removes the outputs of a transaction |
| `UtxoView.UtxoViewpoint.Detach` | protocol/state/utxo_view.go:119-130 | detaches the transactions of a block in their order |
| `UtxoStore.GetTransactionsUtxo` | database/leveldb/utxo_view.go:19-41 | loads exactly the stored outputs the transactions spend that the view does not have yet |
| `UtxoStore.SaveUtxoView` | database/leveldb/utxo_view.go:55-69 | writes the view over the store: spent entries are deleted unless they are coinbases, others stored |
| `UtxoStore.SaveKeepsMeaning` | database/leveldb/utxo_view.go:55-69 | saving does not change which outputs the store over the view stands for |
| `UtxoStore.ApplyTxsSimulates` | protocol/state/utxo_view.go:23-76 | applying transactions to a view that covers what they spend does in the view what their actions do in the ledger, and fails exactly when they do |
| `UtxoStore.DetachTxsSimulates` | protocol/state/utxo_view.go:83-130 | the same for detaching and the inverted actions |
| `UtxoStore.LoadCovers` | database/leveldb/utxo_view.go:19-41 | after loading, the view covers all outputs the transactions spend, without changing what store and view stand for |
| `Ledger.DoAllPointwise` | protocol/state/utxo_view.go:23-130 | a list of actions is accepted on all outputs exactly when each output accepts its own, and leads each where its own lead |
| `Ledger.UndoAll` | protocol/state/utxo_view.go:83-130 | inverting actions in forward order restores the outputs when nothing made in the list is spent in it |
| `Ledger.UndoExactly` | protocol/state/utxo_view.go:83-130 | and only then |
| `Ledger.LivesOfAnOutput` | protocol/state/utxo_view.go:23-63 | in an accepted history an output is never made, or made and still there, or made and spent once, a coinbase only when mature |
| `ViewRuns.OneViewSimulates` | protocol/block.go:101-148 | any sequence of attach and detach steps through one view does in the view what the actions do in the ledger |
| `ViewRuns.OneViewLikeFreshViews` | protocol/block.go:101-148 | one lazily loaded view saved once gives the same verdict and the same stored meaning as a fresh view and a save per block, for every sequence of steps |
| `BlockTree.CommonPrefixIsMeeting` | protocol/block.go:58-74 | two chains hold the same node at a height exactly up to their lowest common ancestor |
| `BlockTree.PathByHeight` | protocol/state/blockindex.go:38-64 | the parent walk from a node has one node at each height from the root to it |
| `BlockIndex.BlockIndex.AddNode` | protocol/state/blockindex.go:140-145 | the node is found under its hash, all others as before |
| `BlockIndex.BlockIndex.InMainchain` | protocol/state/blockindex.go:168-177 | true exactly for indexed nodes on the path of the current tip |
| `BlockIndex.BlockIndex.SetMainChain` | protocol/state/blockindex.go:194-215 | whatever tip the array described before, afterwards it is exactly the parent walk of the new tip, although the walk stops early |
| `BlockIndex.EarlyStop` | protocol/state/blockindex.go:203-214 | if a slot already holds the node of the walk, so do all slots below it |
| `Chain.Store.SaveBlock` | database/leveldb/store.go:157-182 | stores the block and its transaction status under its hash |
| `Chain.Store.SaveChainStatus` | database/leveldb/store.go:185-199 | saves the view and the new tip together |
| `Chain.OrphanManage.Add` | protocol/orphan_manage.go:50-63 | keeps an orphan once, listed under the parent it waits for |
| `Chain.OrphanManage.Delete` | protocol/orphan_manage.go:66-107 | forgets an orphan; its hash leaves the list of its parent only if it is alone on it |
| `Chain.Chain.constructor` | protocol/protocol.go:39-127 | a chain on an empty store: the genesis block saved, applied and the tip |
| `Chain.Chain.Open` | protocol/protocol.go:39-65 | a chain on an existing store has the state it was left in, except for orphans |
| `Chain.Chain.CalcReorganizeNodes` | protocol/block.go:58-74 | exactly the two paths to the lowest common ancestor: nodes to attach upwards, nodes to detach downwards |
| `Chain.Chain.ConnectBlock` | protocol/block.go:76-99 | one block attached through a fresh view and saved, or nothing changed |
| `Chain.Chain.ReorganizeChain` | protocol/block.go:101-148 | detaches and attaches through one view and saves once, or changes nothing |
| `Chain.Chain.SetState` | protocol/protocol.go:172-187 | view saved, tip and main chain array moved |
| `Chain.Chain.SaveBlock` | protocol/block.go:151-181 | a valid block is stored and indexed under its parent and leaves the orphans |
| `Chain.Chain.SaveSubBlock` | protocol/block.go:184-207 | adopts waiting orphans recursively and returns the highest block it could save |
| `Adoption.SubBlockAdopts` | protocol/block.go:184-207 | of the orphans that wait for the block, or for one that is adopted, exactly those that are accepted under their parent are added and leave the pool; the block returned is at least as high as all of them |
| `Adoption.ProcessBlockAdopts` | protocol/block.go:236-267 | a new valid block is stored with exactly the orphans that can now be connected; the chain moves to a highest one of them if and only if it extends the tip, or is higher with no less work, and the outputs allow it |
| `Adoption.ProcessBlockOther` | protocol/block.go:236-252 | any other block changes nothing if it is known or refused, and becomes an orphan listed under its parent if the parent is not known |
| `Adoption.DeletedListExactly` | protocol/orphan_manage.go:66-107 | deleting an orphan clears the list of its parent if it is alone on it and leaves the list as it is otherwise |
| `Arrival.ProcessBlockSettled` | protocol/block.go:184-207 | after every call no orphan is left that would be accepted under a known parent |
| `Arrival.RunReaches` | protocol/block.go:236-267 | whatever blocks arrive, the tree grows by offered blocks only, every offered block that is accepted under a parent in the tree is in the tree, and no orphan that could be connected is left waiting |
| `Arrival.OrderMakesNoDifference` | protocol/block.go:184-267 | the index of blocks after a run does not depend on the order in which the blocks arrived |
| `Arrival.ChildThenParent` | protocol/block.go:184-267 | a block that arrives before its parent is brought in by it, and the chain ends at the child |
| `Chain.Chain.UpdateBest` | protocol/block.go:255-265 | the fork choice: extend the tip, or switch to a higher chain with at least as much work |
| `Chain.Chain.ProcessBlock` | protocol/block.go:236-266 | the whole of block processing as a step of the state machine |
| `ChainRuns.ProcessBlockShape` | protocol/block.go:236-266 | every step keeps index, store and orphans consistent and only adds to the tree |
| `Rewind.RewindExactly` | protocol/block.go:101-148 | detaching the last blocks of an accepted history is never refused, and leaves the replay of the rest if and only if no detached block spends an output it creates |
| `Rewind.SwitchExactly` | protocol/block.go:101-148 | detaching and attaching, if not refused, leads to the replay of the new history if and only if every output that a detached block creates and spends is created first by the new blocks |
| `ChainRuns.UnwindExactly` | protocol/block.go:101-148 | detaching a main chain down to any height leaves the replay of what remains if and only if no detached block spends an output it creates |
| `ChainRuns.SwitchChainsExactly` | protocol/block.go:101-148 | detaching to a common ancestor and attaching the rest of another chain leads from the replay of one to the replay of the other if and only if such outputs are created first by the blocks attached |
| `ChainRuns.ProcessBlockGoodExactly` | protocol/block.go:236-266 | a step keeps the stored outputs equal in meaning to the replay of the main chain, always if it connects, stores or refuses, and if it reorganises exactly under that condition |
| `ChainRuns.RunGoodExactly` | protocol/block.go:236-266 | along every run, of appends, refused connects and reorganisations in any order, they stay equal if and only if each reorganisation meets that condition |
| `ChainRuns.RunGrows` | protocol/block.go:236-266 | no run forgets a block or changes one |
| `ChainRuns.InitialIsGood` | protocol/protocol.go:67-127 | a new chain starts that way |
| `ChainRuns.ProcessBlockTip` | protocol/block.go:236-266 | a step leaves tip and outputs alone or moves to a strictly higher tip with at least as much work; an error moves nothing |
| `ChainRuns.RunTip` | protocol/block.go:236-266 | over every run the height of the tip never falls, rises at each change, and work never falls |
| `ChainRuns.SpendableExactly` | protocol/state/utxo_view.go:23-63 | in every good state (stored outputs mean the replay of the main chain) with unique output ids, an output can be spent exactly when the main chain created it and never spent it |
| `ChainRuns.MainChainSpends` | protocol/state/utxo_view.go:23-63 | no output is spent twice on the main chain of such a state |
| `ChainRuns.MainChainMaturity` | protocol/state/utxo_view.go:23-63 | every spend on it spends an output created before, a coinbase at least ten blocks before |
| `PhantomRun.PhantomIsSpent` | protocol/block.go:101-148 | a run of five blocks with one reorganisation after which none of the three holds: an output is spendable that the main chain never created, is then spent before it is created, and is spent twice |
| `ChainRuns.DetachUndoesAttachExactly` | protocol/state/utxo_view.go:83-130 | detaching undoes attaching if and only if the block spends none of the outputs it creates |
| `ChainRuns.ChainedBlockLeavesPhantom` | protocol/state/utxo_view.go:83-130 | a block with such a spend, and the output that stays behind |
| `HeaderRules.SortTimes` | protocol/state/blockindex.go:87-97 | ascending, with the same number of values below every bound |
| `HeaderRules.CalcPastMedianTime` | protocol/state/blockindex.go:87-97 | the value of middle rank among the last eleven timestamps, or fewer at the start |
| `HeaderRules.CalcNextBits` | protocol/state/blockindex.go:100-110 | the parent bits except at retarget heights, where the window is measured |
| `HeaderRules.ValidateBlockHeader` | protocol/validation/block.go:27-76 | accepts exactly the headers that satisfy all rules, and gives each error exactly when its rule is the first one broken |
| `HeaderRules.MedianNeverFalls` | protocol/validation/block.go:27-36 | past median time never falls from a block to any accepted descendant, including the short windows of the first blocks |
| `HeaderRules.BitsConstantInWindow` | protocol/state/blockindex.go:100-110 | bits are constant over heights 11k+1 to 11k+11 |
| `HeaderRules.SeedClosedForm` | protocol/state/blockindex.go:113-121 | the carried seed is the hash of the ancestor at the largest positive multiple of seven strictly below, else the initial seed |
| `IndexLoad.KeyOrderIsHeightOrder` | database/leveldb/store.go:51-56 | big-endian keys list headers by height |
| `IndexLoad.LoadBlockIndex` | database/leveldb/store.go:125-154 | rebuilds the index from the listed headers or reports a missing parent, trying the node loaded last first |
| `IndexLoad.RunRebuildable` | database/leveldb/store.go:125-154 | every run leaves a tree whose nodes follow from their headers and parents |
| `IndexLoad.LoadRebuildsIndex` | database/leveldb/store.go:125-154 | loading in key order misses no parent and rebuilds the same parents, work and seeds as the live index |
| `Difficulty.RoundTripValue` | consensus/difficulty/difficulty.go:66-124 | packing and unpacking keeps the three leading bytes |
| `Difficulty.RoundTripLoss` | consensus/difficulty/difficulty.go:66-124 | the loss is below one unit of the third byte, nothing up to three bytes, and below a 2^-16 part |
| `Difficulty.ReencodesToItself` | consensus/difficulty/difficulty.go:66-124 | a decoded target encodes to the same compact form |
| `Difficulty.CompactMonotone` | consensus/difficulty/difficulty.go:91-124 | larger targets have larger compact forms |
| `Difficulty.RoundTripMonotone` | consensus/difficulty/difficulty.go:66-124 | decoded targets are ordered like the originals |
| `Difficulty.RetargetScales` | consensus/difficulty/difficulty.go:142-156 | a retarget over a span that is not negative scales the target by span/143, rounded down by less than a 2^-16 part |
| `Difficulty.RetargetMonotoneInSpan` | consensus/difficulty/difficulty.go:142-156 | a slower window never gives a smaller target |
| `Locator.BlockLocator` | net/netsync/block_keeper.go:85-113 | the main chain hashes at the locator heights |
| `Locator.HeightsDescend` | net/netsync/block_keeper.go:85-113 | the heights start at the tip, strictly descend and end at genesis |
| `Locator.LocatorLength` | net/netsync/block_keeper.go:85-113 | the length is logarithmic in the height |
| `Locator.LocateHeaders` | net/netsync/block_keeper.go:197-231 | the headers from the first locator entry on the own main chain up to the stop hash or the limit |
| `Locator.LocatorNearFork` | net/netsync/block_keeper.go:85-113 | among the locator heights one is at most the fork and, if below it, nearer to it than the tip is |
| `Locator.ExchangeStart` | net/netsync/block_keeper.go:197-231 | for two chains that share exactly the blocks up to a height f the answer starts at s <= f with s = f or f - s < best - f |
| `VmTypes.ComputeAsBool` | protocol/vm/types.go:14-21 | true exactly if some byte is not zero |
| `VmTypes.ComputeInt64Bytes` | protocol/vm/types.go:23-35 | the little-endian bytes without high zeros |
| `VmTypes.Int64RoundTrip` | protocol/vm/types.go:23-52 | every 64-bit integer is read back unchanged |
| `VmTypes.AsInt64InRange` | protocol/vm/types.go:37-52 | up to eight bytes read as a 64-bit integer, more are refused |
| `Ops.ParseOpExactly` | protocol/vm/ops.go:342-450 | an instruction is parsed if and only if it exists, that is its opcode and data belong together, and the program has its bytes there |
| `Ops.SameInstsSameProgram` | protocol/vm/ops.go:452-467 | two programs within the size limit that parse into the same instructions are the same |
| `Ops.ComputeParseProgram` | protocol/vm/ops.go:452-467 | the instructions one after the other, or the first error |
| `Ops.ParseProgramExactly` | protocol/vm/ops.go:452-467 | parsing yields a list if and only if the program is laid out as exactly that list |
| `Ops.ParseAnywhere` | protocol/vm/ops.go:342-450 | the text of an instruction parses the same wherever it stands |
| `Pushdata.PushdataParses` | protocol/vm/pushdata.go:35-54 | the encoding of data is one instruction that carries the data |
| `Pushdata.PushdataInt64Parses` | protocol/vm/pushdata.go:56-64 | the encoding of an integer is one instruction whose data reads back as the integer |
| `Layout.PatchingFills` | protocol/vmutil/builder.go:103-114 | writing an address at all places where its target is used gives the text of the items with that address |
| `Layout.EmittedParses` | protocol/vmutil/builder.go:30-114 | a program emitted from instructions parses into exactly those |
| `ProgramBuilder.Builder.constructor` | protocol/vmutil/builder.go:22-27 | an empty program |
| `ProgramBuilder.Builder.AddInt64` | protocol/vmutil/builder.go:30-33 | appends the push of an integer |
| `ProgramBuilder.Builder.AddData` | protocol/vmutil/builder.go:36-39 | appends the push of data |
| `ProgramBuilder.Builder.AddRawBytes` | protocol/vmutil/builder.go:43-46 | appends the bytes |
| `ProgramBuilder.Builder.AddOp` | protocol/vmutil/builder.go:49-52 | appends an opcode |
| `ProgramBuilder.Builder.NewJumpTarget` | protocol/vmutil/builder.go:57-60 | a number not given out before |
| `ProgramBuilder.Builder.AddJump` | protocol/vmutil/builder.go:65-81 | appends a jump with an open address |
| `ProgramBuilder.Builder.SetJumpTarget` | protocol/vmutil/builder.go:90-93 | places the target at the end of the program so far |
| `ProgramBuilder.Builder.Build` | protocol/vmutil/builder.go:103-114 | succeeds exactly when every target jumped to is placed; all jumps then carry the placed addresses, and if all items are instructions the program parses back into exactly those |
| `ProgramBuilder.JumpsLandOnInstructions` | protocol/vmutil/builder.go:76-114 | every jump of a built program lands on an instruction or the end |
| `Scripts.P2wshProgram` | protocol/vmutil/script.go:43-48 | version zero and the hash |
| `Scripts.P2shProgram` | protocol/vmutil/script.go:61-72 | the program that checks a script against its hash and runs it |
| `Scripts.MultiSigProgram` | protocol/vmutil/script.go:20-33 | refuses exactly the bad quorums; otherwise the script of the quorum |
| `Scripts.TransferProgram` | protocol/vmutil/vaab.go:6-23 | deposit and withdraw programs |
| `Scripts.ContractProgram` | protocol/vmutil/script.go:141-163 | create, call and contract programs |
| `Scripts.P2wshRecognised` | consensus/segwit/segwit.go:26-58 | the generated program is recognised exactly for hashes of 20 bytes, and the hash is read back |
| `Scripts.WitnessOfP2wsh` | protocol/validation/vmcontext.go:141-148 | it is checked by running the script-hash program for that hash |
| `Scripts.TransferRecognised` | protocol/vm/vaab.go:16-137 | deposit and withdraw programs are recognised exactly for addresses of 20 bytes, and the address is read back |
| `Scripts.ContractRecognised` | protocol/vm/create.go:17-38 | create, call and contract programs are recognised exactly if there is code and the program is within the size limit |
| `Machine.ComputeStackCost` | protocol/vm/vm.go:221-227 | eight per item plus the sizes |
| `Machine.ApplyCost` | protocol/vm/vm.go:208-215 | takes the cost from the run limit and adds no worth, also when it fails |
| `Machine.Push` | protocol/vm/vm.go:143-155 | moves run limit into the stack; deferred, it adds worth that the end of the instruction charges |
| `Machine.Pop` | protocol/vm/vm.go:165-189 | takes twice the cost of the item |
| `StackOps.MovedBack` | protocol/vm/stack.go:89-121 | rearranging is undone by moving the other items: SWAP and 2SWAP undo themselves |
| `StackOps.MovedKeeps` | protocol/vm/stack.go:265-292 | rearranging touches only the top items and neither loses nor makes one |
| `StackOps.AltStackRoundTrip` | protocol/vm/stack.go:5-31 | what goes to the alternate stack comes back |
| `StackOps.DupCopies` | protocol/vm/stack.go:47-70 | the top n items are appended once more in order |
| `SpliceOps.CatJoins` | protocol/vm/splice.go:5-29 | CAT and CATPUSHDATA leave the two items joined |
| `SpliceOps.LeftAndRightUndoCat` | protocol/vm/splice.go:70-131 | LEFT and RIGHT take a joined item apart again |
| `SpliceOps.SubstrCutsOut` | protocol/vm/splice.go:31-68 | SUBSTR leaves the middle part |
| `SpliceOps.InvertTwice` | protocol/vm/bitwise.go:5-26 | INVERT undoes itself |
| `NumericOps.ArithmeticIsExact` | protocol/vm/numeric.go:127-185 | sums, differences and products are refused exactly when they do not fit and otherwise read back exactly |
| `NumericOps.QuotientLaw` | protocol/vm/numeric.go:187-208 | the rest is smaller than the divisor and has the sign of the dividend |
| `NumericOps.ModuloLaw` | protocol/vm/numeric.go:210-239 | MOD has the sign of the divisor, and goes with DIV exactly when there is no rest or the signs agree |
| `NumericOps.ShiftsInvert` | protocol/vm/numeric.go:241-286 | a left shift that succeeds is undone by a right shift |
| `CryptoOps.ComputeAllUsedUp` | protocol/vm/crypto.go:122-128 | the loop over keys and signatures |
| `CryptoOps.GreedyIsExact` | protocol/vm/crypto.go:122-128 | the loop uses up all signatures if and only if an order-preserving one-to-one matching of them into the keys exists |
| `Interpreter.ExecPlain` | protocol/vm/ops.go:208-339 | every instruction without control flow lowers the level if it succeeds and adds no worth if it fails |
| `Interpreter.ExecJump` | protocol/vm/control.go:84-108 | so do the jumps; JUMP always goes to the address in its data, JUMPIF exactly if the item it pops is true |
| `Interpreter.PrepareChild` | protocol/vm/control.go:30-71 | what a child machine is given is worth at least 64 less than what the parent loses |
| `GasSafety.PerformSafe` | protocol/vm/vm.go:97-141 | every instruction, at every depth, lowers run limit plus stack cost minus unpaid cost if it succeeds, and does not raise it if it fails |
| `GasSafety.RunSafe` | protocol/vm/vm.go:87-95 | every run keeps the run limit non-negative and never raises worth minus unpaid cost; one that is cut off has left unpaid what it went beyond its worth in steps |
| `GasSafety.StepLowersWorth` | protocol/vm/vm.go:97-141 | a successful step whose children end without error strictly lowers run limit plus stack cost |
| `GasSafety.VerifyIsBounded` | protocol/vm/vm.go:39-79 | Verify returns at most gasLimit plus what failing children left unpaid, and a run that is cut off has left at least as much unpaid as it went beyond gasLimit steps |
| `GasSafety.QuietVerifyIsBounded` | protocol/vm/vm.go:39-79 | if all children end without error, Verify ends within gasLimit steps and returns at most gasLimit |
| `GasSafety.QuietVerifyExecutes` | protocol/vm/vm.go:39-79 | and all machines together execute at most gasLimit + 1 instructions; if the program ends well, executed plus returned is at most gasLimit |
| `GasSafety.NoGasNoAcceptance` | protocol/vm/vm.go:39-79 | with no gas nothing is accepted |
| `Frugality.PlainFrugal` | protocol/vm/ops.go:208-339 | every instruction without control flow pays one more than the cost of each item it adds, and leaves at most one short field unpaid |
| `Termination.NoChildrenEnds` | protocol/vm/vm.go:39-95 | a program without the byte of CHECKPREDICATE ends within gasLimit steps and returns at most gasLimit, in every context |
| `Termination.ShortContextEnds` | protocol/vm/vm.go:39-95 | if no field of the context, the program included, is longer than 109 bytes, every program ends, within a number of steps quadratic in the gas limit |
| `Divergence.UnpaidChildRaisesWorth` | protocol/vm/control.go:63-81 | a child that cannot pay for its last item, and by how much it raises the worth of its parent |
| `Divergence.LoopNeverEnds` | protocol/vm/control.go:30-108 | for every length from 112 bytes that the parser accepts, a program that never ends with any gas from 285 on; its run limit is the same in every round |
| `Divergence.TightLoopNeverEnds` | protocol/vm/control.go:30-108 | for every length from 110 bytes, one that never ends with gas 284 |
| `Divergence.EndsExactly` | protocol/vm/vm.go:39-95 | where the other fields are at most 109 bytes long, all programs of n bytes end with all arguments and gas if and only if n is at most 109 or above the size limit |
| `Divergence.ValidationEndsExactly` | protocol/validation/vmcontext.go:15-138 | in the contexts in which transactions are validated the other fields are always short, so there the length alone decides |
| `GasSafety.MoreFuelSameRun` | protocol/vm/vm.go:87-95 | a run that ends does not depend on the fuel |
| `VirtualMachine.Vm.constructor` | protocol/vm/vm.go:55-60 | a machine with its program, limit and stack |
| `VirtualMachine.Vm.ApplyCost` | protocol/vm/vm.go:208-215 | as the function of the same name, on the object |
| `VirtualMachine.Vm.Push` | protocol/vm/vm.go:143-155 | as the function of the same name, on the object |
| `VirtualMachine.Vm.Pop` | protocol/vm/vm.go:165-189 | as the function of the same name, on the object |
| `VirtualMachine.Vm.PopInt` | protocol/vm/vm.go:191-198 | as the function of the same name, on the object |
| `VirtualMachine.Vm.CheckMultiSig` | protocol/vm/crypto.go:70-129 | as the instruction, with its loops |
| `VirtualMachine.Vm.CheckPredicate` | protocol/vm/control.go:30-82 | as the instruction, with a child object that is run and read back |
| `VirtualMachine.Vm.Jump` | protocol/vm/control.go:84-108 | as the instruction, setting the next position |
| `VirtualMachine.Vm.FalseResult` | protocol/vm/vm.go:83-85 | true exactly if the stack is empty or its top item is false |
| `VirtualMachine.Vm.Step` | protocol/vm/vm.go:97-141 | as the step of the interpreter |
| `VirtualMachine.Vm.Run` | protocol/vm/vm.go:87-95 | as the run of the interpreter |
| `VirtualMachine.Verify` | protocol/vm/vm.go:39-79 | as the verdict of the interpreter |
| `Assembler.ComputeAssemble` | protocol/vm/assemble.go:21-115 | bytes appended token by token and jumps filled in at the end give the text of the items with all labels resolved, or the first error |
| `Assembler.ComputeDisassemble` | protocol/vm/assemble.go:117-179 | two passes give the tokens with labels numbered by first use |
| `Assembler.LabelsDiffer` | protocol/vm/assemble.go:126-146 | different targets get different labels |
| `Reassembly.WhatAssembles` | protocol/vm/assemble.go:53-60 | of parsed instructions exactly expansion opcodes and empty pushes with a length have no token that assembles |
| `Reassembly.ReassemblesExactly` | protocol/vm/assemble.go:21-179 | within the size limit, assembling a disassembly succeeds exactly when there is no such instruction and all jumps land on instructions or the end |
| `Reassembly.StepsInLock` | protocol/vm/vm.go:97-141 | from the same instruction and state both programs fail alike or go on at the same instruction in the same state |
| `Reassembly.ReassembledRunsAlike` | protocol/vm/assemble.go:21-179 | so the reassembled program, whose offsets differ, has the same states, errors and outcome from every instruction when both are run in the same context |
| `Recoding.ReassemblesToItself` | protocol/vm/assemble.go:21-179 | assembling a disassembly that can be assembled gives back the same bytes if and only if all pushes are in their shortest form |
| `Recoding.BlindRun` | protocol/vm/introspection.go:74-81 | a program without PROGRAM and CHECKPREDICATE runs the same whatever its context says the code is |
| `Recoding.ReassembledVerifiesAlike` | protocol/vm/vm.go:39-79 | as the code of its context, the reassembled program is judged like the old one in every context, with any gas, if it has neither of the two or its bytes are the same |
| `Recoding.MeasuringJudgedDifferently` | protocol/vm/vm.go:39-79 | a program of six bytes that accepts while what it reassembles to does not |
| `WitnessScript.Materialize` | core/txbuilder/rawtxsig_witness.go:56-65 | appends the first signatures present, at most the quorum |
| `WitnessScript.PickedMatches` | core/txbuilder/rawtxsig_witness.go:56-65 | they can be matched in order to the keys of their slots |
| `WitnessScript.MatchingReversed` | protocol/vm/crypto.go:93-113 | coming off the stack in reverse does not matter |
| `WitnessRun.MultiSigCore` | protocol/vm/crypto.go:70-129 | the state after CHECKMULTISIG on matching signatures |
| `WitnessRun.ScriptRuns` | protocol/vmutil/script.go:20-33 | the script of a quorum, run on matching signatures, ends with true alone on the stack |
| `WitnessRun.HashChecked` | protocol/vmutil/script.go:61-72 | the first four instructions of the script-hash program accept the script with the committed hash |
| `WitnessRun.ChildAccepted` | protocol/vm/control.go:30-82 | the verdict of the child becomes that of the program |
| `WitnessRun.WitnessAccepted` | consensus/segwit/segwit.go:26-49 | for all keys and every quorum of at least one, an output that commits to the quorum is spent by any witness with enough valid signatures, given the stated gas |
| `MapTx.MappedForm` | protocol/bc/types/map.go:73-297 | every mapped transaction has one mux fed by inputs and feeding all results |
| `MapTx.MappedTiedExactly` | protocol/bc/types/map.go:73-297 | its references, positions and values all agree if and only if no two inputs have the same entry and a coinbase comes first |
| `MapTx.DoubleSpendIsDisorderly` | protocol/bc/spend.go:11-13 | two inputs that spend one output have the same entry |
| `MapTx.DisorderlyIsRefused` | protocol/validation/tx.go:499-592 | a mapped transaction with two inputs of the same entry, or a coinbase anywhere but first, is never accepted when its mux is looked at |
| `TxEntries.DistinctInputs` | protocol/validation/tx.go:575-591 | agreeing positions force different mux sources to name different inputs |
| `TxEntries.DistinctResults` | protocol/validation/tx.go:640-657 | and different destinations different results |
| `TxEntries.FlowIsBounded` | protocol/validation/tx.go:499-657 | per asset, results total at most the destinations and sources at most the inputs |
| `TxValidation.GasState.SetGas` | protocol/validation/tx.go:54-74 | the budget is the surplus over 200, at most five million; fails exactly for a negative surplus |
| `TxValidation.GasState.SetGasValid` | protocol/validation/tx.go:76-88 | moves the storage gas from left to used, or fails, exactly if it is not covered, and does not make the transaction gas valid |
| `TxValidation.GasState.UpdateUsage` | protocol/validation/tx.go:90-106 | keeps used plus left; fails exactly for negative gas or an exceeded credit |
| `TxValidation.AddSources` | protocol/validation/tx.go:159-169 | the sums per asset, or an error exactly if one does not fit |
| `TxValidation.SubtractDests` | protocol/validation/tx.go:171-184 | the differences per asset, or an error exactly if an asset has no source or a number does not fit |
| `TxValidation.SettleParity` | protocol/validation/tx.go:158-195 | accepts exactly if sources equal destinations for every asset but the native one, whose surplus is not negative and becomes the budget |
| `TxChecks.Validation.RunProgram` | protocol/validation/tx.go:427-434 | one more run on record, as the machine ran it, and gas updated from its verdict; it passes if and only if the machine accepts, returns gas, and the credit of a transaction that is not gas valid yet suffices |
| `TxChecks.Validation.InspectInput` | protocol/validation/tx.go:259-490 | an input is accepted exactly if its own checks hold and its programs pass |
| `TxChecks.Validation.CheckInput` | protocol/validation/tx.go:126-136 | memoised: an input is inspected once |
| `TxChecks.Validation.CheckDests` | protocol/validation/tx.go:594-657 | accepts exactly if every destination and its result agree |
| `TxChecks.Validation.CheckSource` | protocol/validation/tx.go:499-592 | accepts exactly if the input is fine, its programs pass, and source and input agree |
| `TxChecks.Validation.InspectMux` | protocol/validation/tx.go:158-230 | accepts exactly if the mux is in balance, everything it names agrees, programs pass, and what the programs of the gas inputs leave of the budget covers the storage |
| `TxChecks.Validation.CheckResult` | protocol/validation/tx.go:232-257 | accepts exactly if mux and result are fine and programs pass |
| `TxChecks.Validation.CheckHeader` | protocol/validation/tx.go:138-156 | accepts exactly if all results are fine, and the mux when there are none |
| `TxChecks.ValidateTx` | protocol/validation/tx.go:717-745 | the whole verdict as an if-and-only-if of the graph, the programs run and the gas they took; whatever it is, the record shows every run of the machine in order, each with the account state the one before it left and none twice, and gas used plus left is the budget if the transaction is gas valid |
| `TxChecks.AcceptedConserves` | protocol/validation/tx.go:126-230 | in an accepted transaction results plus surplus never exceed inputs, sources equal destinations but for the native surplus |
| `TxChecks.GasIsPaidFor` | protocol/validation/tx.go:54-106 | gas used is covered by the native surplus and by the limit |
| `Utxos.SortByAmount` | core/account/utxo_keeper.go:255-260 | descending by amount, with the same outputs |
| `Utxos.LargestAreBest` | core/account/utxo_keeper.go:254-305 | no k outputs are worth more than the k largest, also when outputs are listed twice |
| `Utxos.Select` | core/account/utxo_keeper.go:270-305 | panics exactly for amount zero and a list that is not empty; otherwise takes outputs of the list, all if they do not cover the amount, and unless the total overflows covers it whenever that is possible, with at most five outputs or the fewest possible; these are a stretch of the list whose largest output cannot be replaced by the next ones |
| `Utxos.HonestExactly` | core/account/utxo_keeper.go:254-305 | for positive amounts without overflow, no selection holds an output twice, whatever the amount asked for, if and only if no two outputs on offer have the same id |
| `Utxos.SelectedTwice` | core/account/utxo_keeper.go:254-305 | an output of 10 offered twice is selected twice for an amount of 15 |
| `UtxoKeeper.UtxoKeeper.OptUtxos` | core/account/utxo_keeper.go:254-305 | selects among the unreserved outputs and totals the reserved ones in 64 bits |
| `UtxoKeeper.UtxoKeeper.FindUtxos` | core/account/utxo_keeper.go:204-237 | exactly the matching mature outputs, twice those that are stored and unconfirmed, and the total of the immature ones in 64 bits |
| `UtxoKeeper.OfferedOnceExactly` | core/account/utxo_keeper.go:204-237 | what is offered has different ids if and only if nothing is stored and unconfirmed at once |
| `UtxoKeeper.UtxoKeeper.FindUtxo` | core/account/utxo_keeper.go:239-252 | the output with the id, unconfirmed ones only if asked for |
| `UtxoKeeper.UtxoKeeper.Reserve` | core/account/utxo_keeper.go:116-146 | in every state: panics exactly for amount zero with a free output; an error changes nothing; success records unreserved outputs that total amount plus change under a new number in both maps. Unless the matching totals overflow: succeeds exactly when the unreserved mature outputs cover the amount, and otherwise gives the right one of three errors |
| `UtxoKeeper.UtxoKeeper.WalletUpdates` | core/account/utxo_keeper.go:204-252 | what the wallet stores can change between calls without touching the reservations |
| `UtxoKeeper.UtxoKeeper.ReserveParticular` | core/account/utxo_keeper.go:148-173 | in every state reserves one output unless it is reserved, missing or immature, with the error exactly of that reason |
| `UtxoKeeper.UtxoKeeper.Cancel` | core/account/utxo_keeper.go:175-185 | removes a reservation from both maps |
| `UtxoKeeper.UtxoKeeper.ExpireReservation` | core/account/utxo_keeper.go:193-202 | removes exactly the expired reservations |
| `UtxoKeeper.UtxoKeeper.AddUnconfirmedUtxo` | core/account/utxo_keeper.go:79-87 | adds the outputs under their ids |
| `UtxoKeeper.UtxoKeeper.RemoveUnconfirmedUtxo` | core/account/utxo_keeper.go:107-114 | removes exactly the named ones |
| `UtxoKeeper.LiveReservationsDisjoint` | core/account/utxo_keeper.go:116-202 | live reservations share no output |
| `UtxoKeeper.AgreementDetermines` | core/account/utxo_keeper.go:116-202 | the reservations determine the map of reserved outputs |
| `UtxoKeeper.DropUndoesEnter` | core/account/utxo_keeper.go:175-185 | cancelling undoes reserving |
| `TxBuilder.TemplateBuilder.BuildAction` | core/account/builder.go:57-156 | every reservation an action makes is registered for rollback and expires at the given time; it panics exactly for a spend of amount zero with a free output |
| `TxBuilder.TemplateBuilder.Rollback` | core/txbuilder/builder.go:99-103 | cancels all of them and restores both maps |
| `TxBuilder.Build` | core/txbuilder/txbuilder.go:47-85 | in every state of the keeper, a build that fails leaves the reservation maps exactly as they were; if it is done every action has finished and each that spends has its own new reservation; whatever happens older reservations stay and new ones expire at the given time |
| `Sm2Field.ReduceCarry` | basis/crypto/sm2/p256.go:807-812 | adds the table row of the carry and restores the bounds |
| `Sm2Field.RowValue` | basis/crypto/sm2/p256.go:795-804 | a row is its multiple of 2^257 modulo the prime |
| `Sm2Field.Add` | basis/crypto/sm2/p256.go:602-619 | the sum modulo the prime, within bounds, with a carry below eight; the result may overwrite an operand |
| `Sm2Field.ZeroValue` | basis/crypto/sm2/p256.go:599 | the constant is eight times the prime |
| `Sm2Field.Sub` | basis/crypto/sm2/p256.go:622-642 | the difference modulo the prime, within bounds, with a carry below eight |
| `Sm2Field.WeightProduct` | basis/crypto/sm2/p256.go:645-732 | the weights of two limbs multiply to that of their sum, doubled for two odd ones |
| `Sm2Field.RowsMultiply` | basis/crypto/sm2/p256.go:645-732 | the columns of limb products add up to the product |
| `Sm2Field.MulColumns` | basis/crypto/sm2/p256.go:645-731 | the 17 limbs stand for the exact product and none overflows 64 bits |
| `Sm2Field.SquareColumns` | basis/crypto/sm2/p256.go:735-785 | so do those of the square |
| `Sm2Reduce.SplitKeeps` | basis/crypto/sm2/p256.go:820-853 | the 17 columns are cut into 18 limbs that stand for the same number, within bounds |
| `Sm2Reduce.ChangesAddUp` | basis/crypto/sm2/p256.go:855-987 | what an elimination adds to the limbs, with all its lending and borrowing, is the digit times the prime plus one |
| `Sm2Reduce.EliminateValue` | basis/crypto/sm2/p256.go:855-987 | an elimination adds a multiple of the prime to the number that the words stand for, where words from 0xC0000000 on stand for limbs below zero |
| `Sm2Reduce.EliminateInRange` | basis/crypto/sm2/p256.go:855-987 | and keeps all limbs within the bounds that the next one needs; only odd limbs from nine on get below zero |
| `Sm2Reduce.FoldValue` | basis/crypto/sm2/p256.go:989-1006 | moving the upper limbs down keeps their value, except that a debt that stays unsettled counts 2^32 at its place |
| `Sm2Reduce.ReducedExactly` | basis/crypto/sm2/p256.go:816-1008 | for all columns of bounded factors the result is within bounds, and stands for the columns divided by 2^257 modulo the prime if and only if every limb below zero is settled by the bit and the carry that come to it at the end |
| `Sm2Reduce.RoomyIsRight` | basis/crypto/sm2/p256.go:816-1008 | this is so whenever digits 9, 11, 13, 15 and 17 of the columns are not zero |
| `Sm2Reduce.EliminateLimb` | basis/crypto/sm2/p256.go:857-986 | one elimination in place, with the branches of the source, is the elimination of the limbs |
| `Sm2Reduce.ReduceDegree` | basis/crypto/sm2/p256.go:816-1008 | the whole reduction in place computes the reduced columns, within bounds, and is right exactly under that condition |
| `Sm2Reduce.Mul` | basis/crypto/sm2/p256.go:645-732 | for all bounded elements a bounded result, which is the product divided by 2^257 modulo the prime if and only if its columns meet that condition; the result may overwrite an operand |
| `Sm2Reduce.Square` | basis/crypto/sm2/p256.go:735-786 | the same for the square |
| `Sm2Reduce.SmallProductIsWrong` | basis/crypto/sm2/p256.go:894-921 | two bounded elements in whose product a debt stays unsettled and which is not the product divided by 2^257 |
| `Sm2Reduce.SmallArises` | basis/crypto/sm2/p256.go:1016-1037 | both are what FromBig makes of a number |
| `Sm2Field.FromBig` | basis/crypto/sm2/p256.go:1016-1037 | the digits of a times 2^257 modulo the prime, within bounds |
| `Sm2Field.ToBig` | basis/crypto/sm2/p256.go:1041-1056 | the value of the limbs times the inverse of 2^257 modulo the prime |
| `Sm2Field.ToBigOfFromBig` | basis/crypto/sm2/p256.go:1016-1056 | there and back is reduction modulo the prime |
| `BlockEffects.SpendsWhatWasCreated` | protocol/state/utxo_view.go:23-63 | everything a transaction on the main chain of a good state spends was created by an earlier transaction of that chain, of the same block or of an earlier one |
| `BlockEffects.RewardsMature` | protocol/state/utxo_view.go:40-42 | on the main chain of a good state, an output that the first transaction of the block at height g creates is not spent before height g + 10 |
| `BlockEffects.SpentByOne` | protocol/state/utxo_view.go:37-39 | no output is spent by two transactions of the main chain of a good state |
| `BlockEffects.SpendableOnMain` | protocol/state/utxo_view.go:78-81 | in a good state an output can be spent if and only if some transaction of the main chain created it and none has spent it |
| `HeaderRules.ChildBitsExactly` | consensus/difficulty/difficulty.go:142-156 | an accepted child has the bits of its parent, except after every eleventh block: then the compact form of the target times the signed 64-bit time from the block eleven back on the chain to the parent, over 143 |
| `HeaderRules.RetargetFollowsTime` | consensus/difficulty/difficulty.go:142-156 | if that time is not negative, the new target is the old one times it over 143, less a 2^-16 part at most |
| `HeaderRules.WindowOnPath` | protocol/state/blockindex.go:86-98 | the window of the median is the timestamps of the end of the chain |
| `HeaderRules.WorkAddsUp` | protocol/state/blockindex.go:38-64 | the work carried by a node is the sum over its chain |
| `Difficulty.WorkExactly` | consensus/difficulty/difficulty.go:36-44 | work is 2^256 over the target and one, rounded down, and none for a target that is not positive |
| `Difficulty.WorkFallsWithTarget` | consensus/difficulty/difficulty.go:36-44 | a smaller target means at least as much work |
| `Difficulty.CompactFormat` | consensus/difficulty/difficulty.go:66-88 | the top byte, the sign bit and the 55 bits below it of a compact number, and the target they stand for |
| `Locator.HeightsClosedForm` | net/netsync/block_keeper.go:85-113 | the heights on a locator in closed form: nine steps of one block, then steps that double |
| `Opcodes.ComparisonsExactly` | protocol/vm/numeric.go:329-439 | NUMEQUAL, NUMNOTEQUAL, LESSTHAN, GREATERTHAN, LESSTHANOREQUAL, GREATERTHANOREQUAL, MIN and MAX: result, price and state |
| `Opcodes.ArithmeticExactly` | protocol/vm/numeric.go:127-286 | ADD, SUB, MUL, DIV, MOD and RSHIFT: the number or the reason why there is none, price and state |
| `Opcodes.UnaryExactly` | protocol/vm/numeric.go:9-125 | 1ADD, 1SUB, 2MUL, 2DIV, NEGATE, ABS, NOT and 0NOTEQUAL |
| `Opcodes.LshiftExactly` | protocol/vm/numeric.go:241-267 | LSHIFT: zero stays zero, otherwise nothing may be lost |
| `Opcodes.LogicExactly` | protocol/vm/numeric.go:288-318 | BOOLAND and BOOLOR |
| `Opcodes.NumEqualVerifyExactly` | protocol/vm/numeric.go:333-350 | NUMEQUALVERIFY goes on exactly for equal numbers |
| `Opcodes.WithinExactly` | protocol/vm/numeric.go:441-459 | WITHIN: the lowest of three items lies in the range of the other two, upper end excluded |
| `Opcodes.DropExactly` | protocol/vm/stack.go:153-163 | DROP takes one item off and pays for it |
| `Opcodes.DepthCounts` | protocol/vm/stack.go:141-151 | DEPTH pushes the number of items |
| `Opcodes.TwoItemsExactly` | protocol/vm/stack.go:33-312 | 2DROP, NIP, OVER, TUCK and SWAP |
| `Opcodes.CopiesExactly` | protocol/vm/stack.go:47-167 | DUP, 2DUP, 3DUP, 2OVER and IFDUP: the copies, each paid for |
| `Opcodes.MovesExactly` | protocol/vm/stack.go:89-279 | ROT, 2SWAP and 2ROT |
| `Opcodes.DepthsExactly` | protocol/vm/stack.go:204-279 | PICK copies and ROLL moves the item that lies the given number below; when they fail and why |
| `Opcodes.AltStackExactly` | protocol/vm/stack.go:5-31 | TOALTSTACK and FROMALTSTACK move one item |
| `Opcodes.PushesExactly` | protocol/vm/pushdata.go:5-29 | the pushing instructions push their data, for nine and its size |
| `Opcodes.VerdictsExactly` | protocol/vm/control.go:7-28 | VERIFY goes on exactly if the item on top is true, FAIL always fails |
| `DataOpcodes.EqualExactly` | protocol/vm/bitwise.go:109-150 | EQUAL and EQUALVERIFY compare two items and pay for the shorter one |
| `DataOpcodes.BitwiseExactly` | protocol/vm/bitwise.go:28-107 | AND, OR and XOR: length and every byte of the result |
| `DataOpcodes.BitOps` | protocol/vm/bitwise.go:28-107 | the three operations on one byte |
| `DataOpcodes.CatExactly` | protocol/vm/splice.go:5-170 | CAT and CATPUSHDATA |
| `DataOpcodes.LeftRightExactly` | protocol/vm/splice.go:70-131 | LEFT and RIGHT: the first or last bytes, and when there are too few |
| `DataOpcodes.SubstrExactly` | protocol/vm/splice.go:31-68 | SUBSTR: the bytes of the given range, if the item has it |
| `DataOpcodes.SizeInvertExactly` | protocol/vm/splice.go:133-147 | SIZE adds the size of the item on top, INVERT turns its bits |
| `DataOpcodes.TxSigHashExactly` | protocol/vm/crypto.go:131-140 | TXSIGHASH pushes the hash that is signed |
| `DataOpcodes.HashesExactly` | protocol/vm/crypto.go:15-154 | SHA256, SHA3 and HASH160 |
| `DataOpcodes.CheckSigExactly` | protocol/vm/crypto.go:44-68 | CHECKSIG: true if and only if the key has 32 bytes and the signature is valid; a message of another size than 32 bytes is an error |
| `DataOpcodes.FieldsExactly` | protocol/vm/introspection.go:50-150 | ASSET, AMOUNT, PROGRAM, TXDATA, ENTRYDATA, INDEX, ENTRYID, OUTPUTID and BLOCKHEIGHT show their fields, or fail if they are missing |
| `DataOpcodes.CheckOutputExactly` | protocol/vm/introspection.go:3-48 | CHECKOUTPUT hands its five operands to the context in their roles |
| `DataOpcodes.TransfersExactly` | protocol/vm/vaab.go:53-190 | DEPOSIT and WITHDRAW hand the address to the account state and take it over |
| `DataOpcodes.ContractsExactly` | protocol/vm/create.go:40-124 | CREATE, CALL and CONTRACT hand operands and remaining gas to the contract machine, take over its state, pay what it asks for and push its result |
| `ControlOpcodes.JumpsExactly` | protocol/vm/control.go:84-108 | JUMP and JUMPIF |
| `ControlOpcodes.PrepareExactly` | protocol/vm/control.go:30-62 | what CHECKPREDICATE hands to the child and keeps: items, gas and price, and each way to fail |
| `ControlOpcodes.CheckPredicateExactly` | protocol/vm/control.go:30-82 | the answer is whether the child ends well with true on top; its gas, the cost of its items and its account state come back whatever it ends with |
| `ControlOpcodes.PerformCharges` | protocol/vm/vm.go:97-141 | an instruction pays its price at once and then what it has put off, or fails for lack of gas |
| `ControlOpcodes.ExpansionExactly` | protocol/vm/vm.go:113-121 | an opcode without a meaning is refused where such opcodes are reserved and costs one elsewhere |
| `ControlOpcodes.VerifyExactly` | protocol/vm/vm.go:39-81 | a program is accepted if and only if its version is one, gas pays for the arguments and the run on them ends well with true on top; the gas left is that of the run |
| `Bytes.LittleEndianDigits` | protocol/vm/types.go:23-53 | the least significant byte comes first |
| `Pushdata.ShortestPush` | protocol/vm/pushdata.go:35-54 | no push with a length of the same data is shorter |
| `AssembledText.AssembleExactly` | protocol/vm/assemble.go:21-114 | tokens are assembled if and only if each can be written, no label stands twice or too far, and all labels used stand somewhere; the program then has the text of each token at its place, and jumps carry the places of their labels |
| `WitnessSafety.CheckMultiSigExactly` | protocol/vm/crypto.go:70-129 | CHECKMULTISIG succeeds if and only if counts, message size and gas are in order, and then leaves true if and only if all keys have 32 bytes and the signatures are valid for different keys in their order |
| `WitnessSafety.ScriptIsSafe` | protocol/vmutil/script.go:20-34 | if the script of a quorum ends well with true on top, the topmost items are valid signatures of the transaction for as many of its keys |
| `WitnessSafety.WitnessIsSafe` | consensus/segwit/segwit.go:26-49 | whatever the witness, gas and fuel: if an output that commits to a hash is spent, the last item of the witness has that hash, and if it is the script of a quorum, the items before it are valid signatures for as many of its keys |
| `MapTx.GasPayersExactly` | protocol/bc/types/map.go:23-65 | an entry may pay for gas, and is listed once, if and only if some input of that entry spends or withdraws the native asset |
| `MapTx.MappedValues` | protocol/bc/types/map.go:73-297 | the mux takes from each input and gives to each output what they say |
| `TxChecks.SettledIsAccepted` | protocol/validation/tx.go:126-490 | what acceptance means by kind of input: a program of every source that is not a coinbase has passed, and the second one of contract inputs and withdrawals that have one; spends match the outputs they spend, coinbases are native; the programs of deposits have passed; gas for all programs and the storage is within the budget |
| `TxChecks.OnlyTheseRun` | protocol/validation/tx.go:259-490 | no program is run that the kind of its entry does not call for |
| `TxChecks.BudgetExactly` | protocol/validation/tx.go:54-71 | a surplus pays for an amount of gas if and only if the amount is within the limit and its price within the surplus |
| `Utxos.NoneCanBeLeftOut` | core/account/utxo_keeper.go:270-305 | what is selected covers the amount, and without any one output it does not |
| `TxBuilder.TemplateBuilder.BuildSpendAccount` | core/account/builder.go:57-105 | an account spend is done if and only if it is ready, the free outputs cover the amount and its later steps succeed; then its own new reservation holds outputs of the account and asset worth amount and change |
| `TxBuilder.TemplateBuilder.BuildSpendOutput` | core/account/builder.go:120-156 | an output spend is done if and only if the output is named, free, known and mature and its later steps succeed; then its own new reservation holds that output |

## Left out

- ValidateBlock: the sums of gas and fees over a block, block rewards and merkle roots; blocks reach the chain with a validation verdict as a parameter.
- Contract execution, account state and state roots: a contract run is a function from account state and arguments to new account state, gas and result.
- Hashing, ed25519, proof of work and merkle trees: parameters.
- Nil fields of entries and sources: mapping a transaction always sets them.
- Interpreter.ExecPlain: each instruction is given by its function; its contract states the cost law, and exact effects are stated for the instructions that a lemma names.
- SpliceOps.Concatenate: items are values. In the source CAT appends to a slice, and where LEFT or SUBSTR has left room behind it the bytes of another item that shares the array can be overwritten.
- Int64 overflow of the run limit and of deferred costs: numbers are unbounded. The programs shown never to end come back to the same run limit in every round.
- Error kinds of programs longer than 2^31-1 bytes: all are reported as too long.
- Text scanning in the assembler, quoted strings, hexadecimal digits and the spelling of labels.
- Reassembly.ReassembledRunsAlike: compares two programs in the same context, so PROGRAM pushes the same bytes in both; Recoding has the two contexts.
- Recoding.ReassembledVerifiesAlike: the condition is sufficient; a program may have the two instructions and never reach them.
- Divergence.EndsExactly: about all programs of a length together; a single longer program may well end. Contexts with other long fields, which validation never builds, are not decided.
- WitnessRun.WitnessAccepted: the gas bound is sufficient, not the least one.
- RawTxSigWitness.sign: which keys sign is left to the caller.
- UtxoKeeper.UtxoKeeper.Reserve: if the matching totals reach 2^64 only the bookkeeping is stated, since sums wrap around. Stored outputs that cannot be decoded are not there.
- Reservation numbers do not wrap.
- TxBuilder.Build: one step here. In the source only each reservation and each cancellation is locked, so other builds and expiry can come between the actions of a build.
- Orphan expiry and timers; the per-parent lists are lists of child blocks.
- Chain.Chain.SaveBlock: a block whose parent is not indexed is refused; in the source every caller has looked for the parent before.
- ChainRuns.RunGoodExactly: no output id is created twice on a chain that a reorganisation leaves, as ids are hashes that include what is spent.
- Arrival.OrderMakesNoDifference: for a validator that gives the same answers throughout the run, while the node's also looks at the clock; and blocks with the same hash are the same block. Which of several branches of equal height becomes the main chain does depend on the order.
- Heights are unbounded outside the keys of the header index.
- MapTx.MappedTiedExactly: ids are given, equal exactly for equal contents, instead of computed. A coinbase without outputs, for which the mapping panics, is not mapped. A coinbase that is not the last one has no destination in the source and makes validation panic; here its destination is one that every check refuses.
- ParseP2SPMultiSigProgram and IsP2ContractProgram: they read a layout that no generator here writes.
- The branch for balances kept in account state, which the configuration switches off.
- Point arithmetic, scalar multiplication, SM2 signatures and encryption.
- The transaction pool, peers and transport, message encodings, key storage, the HTTP interface and the command line.
- Read and write errors of the database.
