# A proof-of-work ledger with an append-only file system, in Dafny

The repository is a peer-to-peer miner. Each miner keeps a tree of blocks; blocks carry operations on files (create,
append, delete), operations cost coins, and coins are mined. Miners gossip operations and blocks, synchronise when they
dial each other, download blocks they have missed, and serve file reads from the confirmed part of the longest chain.

This project models that behaviour and proves what it guarantees over all inputs, all map iteration orders and all
interleavings of the modelled steps. `dafny verify dfyconfig.toml` checks it.

## How the model is laid out

Pointer structures and event loops keep their form: `Node` and `Blockchain` are classes with `parent`, `children`, `m`
and `lastNode`; `ChainManager`, `PeerManager` and `ChainResolver` are classes whose methods are the cases of the
original loops. Each method is proved against a function or relation on values, and the theorems are about those values.

| file | what it holds |
|---|---|
| Types, BlockTree, Growth | blocks and settings; trees and the chain above a block; how a tree grows under any acceptance rule |
| ProofOfWork | the nonce search and the shift test |
| Accounting, Selection, Validation | what an acceptable list of operations is, by forward replay and by counting; what ValidateOperations computes by walking back |
| Ledger, Convergence | the rule of AddBlock, whole runs of it, and why the order of offers does not matter |
| Search, TipOrder, Walks, Blockchain | the pointer-linked ledger: depth-first search and the order of the tips, backward walks, growth |
| FileViews, ViewPlaces, ClientRecords, Reads, Reversal | records, confirmation and listing as functions of a chain, and place by place; record numbers; what successive reads have to do with each other; the in-place reversals |
| Serialization, Network, CatchUp, Manager | linking a received list, the dial handshake, all ledgers of a network, downloads and replay |
| Peers, BlockFlooding, OperationFlooding | the two gossip protocols and the peer manager's cases |
| Resolver | blocks that arrive before their parents |
| Mining | filtering, the worker's choice, and the mined block |

Choices that hold throughout:

- MD5 over the encoded block is a function value `md5` inside `Rules`; nothing is assumed about it.
- Go map iteration is an arbitrary choice of the next key. `sort.Slice` is any function that returns a permutation
  sorted by time. Channels are unbounded queues. A case of an event loop, or a section under a mutex, is one step.
- A chain is the sequence of blocks from the root to a block. It exists and is unique when walking up ends; ledgers
  reached by AddBlock have one for every block, and linked lists may also hold detached cycles.
- Convergence, catch-up, block flooding and the resolver assume that a hash identifies its block. For mined blocks that
  holds unless the digest has a collision on their data (`MinedHashesIdentify`). Genesis blocks of different miners
  differ in their timestamps, and the results take that into account.
- Results that go through a replay, a table or a threshold have a partner that says the same by counting, by position
  in the chain or with the settings' own fields (`AcceptableByCounting`, `SelectionByCounting`, `VerdictWrittenOut`,
  `ConfirmedExactly`, `FileByPlace`, `LinkableByList`).

Where the code and its documentation differ, the model follows the code:

- CheckOpConfirmed asks for strictly more blocks than the threshold, while the file views step back exactly the
  threshold (`ConfirmedExactly` says precisely which part of the chain that is).
- GetFile lists blocks oldest first, but the operations of one block in reverse.
- The check for repeated creates only looks at creates by miners who also have an operation in the list. So nobody
  creates a file again in a later block (`NobodyCreatesAgain`), but two miners can create one file
  (`OneFileTwoCreators`).
- getLastNodes lists a genesis block without children twice, and GetPreviousBlocks repeats the requested block.
- Of several longest chains the code goes by the one its search meets first, and the search visits the last child of a
  node before the others. So the chain whose branch was added last comes first (`LatestBranchFirst`); all reads of an
  unchanged ledger go by the same tip.
- A download that arrives when no block is kept stops the process. `SurvivesAnswerExactly` says when that happens, and
  `SecondAnswerFails` is a run in which it does.
- The worker validates at the parent it chose before, not at the tip it is looking at. With one longest tip the mined
  block is accepted (`MinedBlockIsAccepted`), and more generally whenever what can be selected at one tip fits all of
  them (`AgreeingTipsAccept`). For two tips and any list this is exact (`TwoTipsExactly`), and so it is for one operation
  and any number of tips (`SeveralTipsVerdict`). `RefusedOnTwoTips` and `MineOnFork` give reachable ledgers, for any
  settings and digests that admit two competing blocks, on which every block that the worker mines is refused.
- In the resolver, the two branches after the chase are never taken in a run: the parent is asked for exactly when
  nothing is pending on it (`AsksOnce`).

## Model

| member | source | states |
|---|---|---|
| ProofOfWork.ShiftTestCountsZeroes | bclib/pow.go:21-27 | shifting right and left by 4 times the difficulty gives the hash back exactly when it ends in that many hexadecimal zeroes |
| ProofOfWork.Validate | bclib/pow.go:81-95 | true exactly when the digest at the block's own nonce ends in enough zeroes |
| ProofOfWork.Run | bclib/pow.go:50-79 | a nonce below the limit is the least that works, with its digest; -1 exactly when the first stop signal comes before any nonce works |
| ProofOfWork.NewBlock | bclib/block.go:23-41 | a block whose nonce is below the limit passes Validate at the same difficulty; its hash is the digest of its parent, operations, miner, time, difficulty and nonce; unless stopped, the nonce is the least that works |
| ProofOfWork.DataCoversTheBlock | bclib/pow.go:29-48 | the data hashed for two blocks is the same exactly when their parents, operations, miners, times, difficulties and nonces are |
| ProofOfWork.SameHashSameBlock | bclib/pow.go:29-48 | two blocks that carry their digests and have one hash are the same block, unless the digest has a collision on their data |
| Accounting.SpentByCounting | bclib/blockchain_rfs.go:66-81 | what a miner spends in a list is the create price times its creates plus one coin for each of its appends and deletes |
| Accounting.BalanceByCounting | bclib/blockchain_rfs.go:54-90 | a balance is each reward times the number of the miner's blocks of that kind, minus the price of all its operations on the chain |
| Accounting.AcceptableByCounting | bclib/blockchain_rfs.go:25-128 | the replayed conditions hold exactly when IDs are distinct here and on the chain, no create repeats one by a miner of the list, and each miner's counted income covers its counted costs |
| Selection.SelectionByCounting | bclib/blockchain_rfs.go:30-127 | a possible answer is exactly a list of distinct IDs, each the last with its ID, not on the chain and no repeated last create, payable by counting, to which no other such operation can be added |
| Selection.VerdictIsExact | bclib/blockchain_rfs.go:30-127 | whatever order the maps are visited in, all operations survive exactly when their IDs are distinct and new, no miner of the list repeats a create of such a miner, and each can pay from its forward-replayed balance |
| Selection.AcceptableIsKept | bclib/blockchain_rfs.go:92-127 | an acceptable list comes back whole from every possible selection |
| Selection.KeptIsAcceptable | bclib/blockchain_rfs.go:92-127 | a list that comes back whole is acceptable |
| Selection.SelectionFromList | bclib/blockchain_rfs.go:117-127 | a selection is part of the given list, and counts its IDs once |
| Selection.SelectionRevalidates | bclib/blockchain_rfs.go:25-128 | with one create per name, whatever ValidateOperations selects is acceptable as a whole |
| Validation.BuildTables | bclib/blockchain_rfs.go:30-44 | the three tables: zero balances of the miners, last operation per ID, last create per name |
| Validation.ReplayOperation | bclib/blockchain_rfs.go:67-87 | one operation on the path charges its miner and strikes out exactly its own ID and the create it repeats |
| Validation.ReplayBlock | bclib/blockchain_rfs.go:55-87 | one block on the path changes every tracked balance by its reward minus its cost, and strikes out its conflicts |
| Walks.ReplayChain | bclib/blockchain_rfs.go:46-90 | after the walk to the root the balances are the forward-replayed ones and the surviving operations are those without a conflict on the path |
| Validation.SelectAffordable | bclib/blockchain_rfs.go:92-127 | in any visiting order: what is kept can be paid, and nothing that was dropped could be added |
| Validation.ListValues | bclib/blockchain_rfs.go:117-125 | every remaining operation is listed once |
| Blockchains.Blockchain.ValidateOperations | bclib/blockchain_rfs.go:25-128 | empty list, unknown parent, and otherwise: a maximal affordable selection and the exact verdict for the chain of the parent, both by replay and by counting |
| Blockchains.Blockchain.ValidateBlock | bclib/blockchain.go:76-96 | the first failing check, proof of work before operations, decides the error |
| Blockchains.Blockchain.Link | bclib/blockchain.go:62-71 | hanging a node below its parent adds exactly one block, one parent link and one entry at the end of one child list, and keeps map, parents and children consistent |
| Blockchains.Blockchain.CheckBlock | bclib/blockchain.go:50-66 | the checks in order: the first that fails is the answer |
| Blockchains.Blockchain.AddBlock | bclib/blockchain.go:49-74 | the error returned is the first check that fails, and tree and child lists grow by the block exactly when there is none; pointers stay consistent |
| Blockchains.Blockchain.constructor | bclib/blockchain.go:23-32 | a new chain is the tree of its genesis block |
| Blockchains.Blockchain.SetConfig | bclib/blockchain.go:44-46 | changes the settings and nothing of the tree |
| Ledger.Verdict | bclib/blockchain.go:49-96 | the answer is "added" exactly when the block is new, its parent known, its proof of work holds and its operations are acceptable there |
| Growth.OfferKeepsTree | bclib/blockchain.go:49-74 | offering any block to a tree keeps it rooted at genesis and keeps every block and parent it had |
| Growth.RunIsHonest | bclib/blockchain.go:49-74 | after any run of offers every block still satisfies the acceptance rule where it stands |
| Growth.RunGrows | bclib/blockchain.go:49-74 | a later tree of a run has every block and parent of an earlier one |
| Growth.RunHoldsOnlyOffered | bclib/blockchain.go:49-74 | every block of a run's tree was in the tree at the start or was offered |
| Growth.RunOfChain | bclib/blockchain.go:49-74 | a chain whose blocks may each follow the ones before, offered in order to its first block, is in the tree as a whole |
| Ledger.AfterIsSound | bclib/blockchain.go:49-96 | after any calls on a new chain, every block but genesis is admissible where it stands |
| Ledger.EveryBlockIsWellMined | bclib/blockchain.go:76-87 | after any run of AddBlock, the digest of every block but genesis ends in as many zeroes as the settings ask for: one number for blocks without operations, one for blocks with some |
| Ledger.VerdictWrittenOut | bclib/blockchain.go:49-96 | when each of the five answers is given, by the zeroes of the digest, the number of operations, known hashes and the counted conditions |
| Ledger.NoOverspending | bclib/blockchain_rfs.go:54-127 | after any run of AddBlock, on any fork, no miner's balance is negative on the path to any block: the counted price of its operations is at most its counted income |
| Ledger.PayersStaySolvent | bclib/blockchain_rfs.go:94-115 | an acceptable block leaves every solvent miner solvent |
| Ledger.UniqueOperations | bclib/blockchain_rfs.go:33-44 | after any run of AddBlock, no operation ID occurs twice on the path to any block, within a block or across blocks |
| Ledger.NobodyCreatesAgain | bclib/blockchain_rfs.go:68-78 | after any run of AddBlock, if a file is created again in a later block of a path, whoever created it before has no operation in that block |
| Ledger.OthersFilesDoNotCount | bclib/blockchain_rfs.go:68-78 | a miner that has created nothing on a path may create any file there, also one that exists |
| Ledger.OneFileTwoCreators | bclib/blockchain_rfs.go:68-78 | a family of reachable ledgers on which two miners create one file, whatever the digests |
| Ledger.BlocksThatCreateTwice | bclib/blockchain_rfs.go:68-78 | the family has a member under every digest |
| Ledger.SoundChainHasDistinctIds | bclib/blockchain_rfs.go:83-86 | the same for any sound ledger, however it was obtained |
| Convergence.RunIsEarned | bclib/blockchain.go:49-96 | a chain is in the ledger exactly when it is built from offered blocks that each satisfy the rule, whatever the parent-first order of offers |
| Convergence.LedgerEffectsDecide | bclib/blockchain_rfs.go:54-127 | acceptance looks at miners and operations of a chain only, so differing genesis timestamps do not matter |
| Convergence.SameTips | bclib/blockchain.go:118-158 | ledgers with the same blocks in the same positions have the same deepest hashes |
| Convergence.Converge | bclib/blockchain.go:49-96 | two ledgers offered the same blocks in any two parent-first orders end with the same blocks, parents, depths and deepest hashes |
| Convergence.MinedHashesIdentify | bclib/pow.go:29-48 | among blocks that carry their digests, a hash names one block unless the digest has a collision |
| Search.ExpandTop | bclib/blockchain.go:132-151 | one turn of the two-stack search keeps its invariant: nodes are stacked once, at their true depth, and no subtree is lost |
| Search.SearchIsComplete | bclib/blockchain.go:132-151 | empty stacks mean that everything below genesis has been visited |
| Search.BestAreTips | bclib/blockchain.go:118-158 | the list kept by the search is exactly the blocks of maximum depth below genesis |
| Search.LastTipsAreTips | bclib/blockchain.go:118-158 | the search, as a function of the child lists, lists exactly the blocks of maximum depth, each once; a lone genesis twice |
| Search.TipsFollowTheVisits | bclib/blockchain.go:126-151 | the tips come in the order of a recursive walk that visits a node, then all below its last child, then below the one before it; a stack of nodes computes that walk |
| TipOrder.TipsByBranch | bclib/blockchain.go:126-151 | of two listed tips the first hangs under a later child of the block where their chains part |
| TipOrder.KidsFollowTheOffers | bclib/blockchain.go:68-71 | in any run the child lists are in the order in which AddBlock accepted the blocks |
| TipOrder.LatestBranchFirst | bclib/blockchain.go:118-158 | after any run of AddBlock, of two longest chains the one whose branch was added later is listed first |
| Blockchains.Blockchain.FindDeepest | bclib/blockchain.go:118-158 | the loop over the two stacks ends, on any consistently linked node map, with the deepest nodes in the order of that walk |
| Blockchains.Blockchain.GetLastNodes | bclib/blockchain.go:118-158 | the nodes of the listed tips, in order, `lastNode` the first; nothing but `lastNode` changes |
| Blockchains.Blockchain.TipsAreTips | bclib/blockchain.go:118-158 | on the real ledger the listed tips are exactly the deepest blocks |
| Blockchains.Blockchain.GetLastHash | bclib/blockchain.go:111-116 | the first of the listed tips, a deepest hash, and that of `lastNode` |
| Blockchains.Blockchain.GetLastBlocks | bclib/blockchain.go:99-109 | the blocks of the listed tips, in the same order, the one of `lastNode` first |
| Walks.StepBack | bclib/blockchain.go:225-235 | finds the node that many steps up exactly when the path is long enough |
| Blockchains.Blockchain.GetLastConfirmedNode | bclib/blockchain.go:214-236 | the block with exactly the threshold of blocks after it on the chain of the first tip, if there is one |
| Walks.ReadFile | bclib/blockchain_rfs.go:194-229 | the backward walk and in-place reversal give the records of the forward replay, and whether the file is named or deleted |
| Walks.CountFile | bclib/blockchain_rfs.go:160-183 | counts the records of the forward replay |
| Walks.ListNames | bclib/blockchain_rfs.go:131-153 | every file named on the path, once |
| Walks.CheckOperation | bclib/blockchain_rfs.go:232-263 | confirmed, present and clash flags as properties of the chain |
| Blockchains.Blockchain.CollectBlocks | bclib/blockchain.go:265-275 | the requested block, then it again with the blocks above it, newest first, up to the limit, on any linked ledger |
| Walks.AncestorsAreNewest | bclib/blockchain.go:268-273 | where walking up ends, what is collected is the newest part of the chain, backwards |
| Blockchains.Blockchain.GetFile | bclib/blockchain_rfs.go:187-230 | the file as replayed on the confirmed part of the chain of the first tip; no file if the chain is too short |
| Blockchains.Blockchain.NumRecs | bclib/blockchain_rfs.go:158-184 | the number of records on the confirmed part of the same chain; -1 if it is too short |
| Blockchains.Blockchain.ListFiles | bclib/blockchain_rfs.go:130-154 | the names on the confirmed part of the same chain, each once |
| Blockchains.Blockchain.CheckOpConfirmed | bclib/blockchain_rfs.go:232-263 | the three flags on the same chain; confirmed is said with the settings' own fields, the clash by its place |
| SuccessiveReads.HashThenBlocks | bclib/blockchain.go:99-116 | GetLastHash is the hash of the first of GetLastBlocks, however many tips there are |
| SuccessiveReads.CountThenRead | bclib/blockchain_rfs.go:158-230 | called one after the other, NumRecs is the number of records that GetFile returns, and both see the file or neither does |
| SuccessiveReads.CheckThenRead | bclib/blockchain_rfs.go:187-263 | an append that CheckOpConfirmed reports as confirmed is in GetFile |
| SuccessiveReads.CheckThenList | bclib/blockchain_rfs.go:130-154 | the file of a confirmed create or delete is in ListFiles, and that of a confirmed append too if the create threshold is not the higher one |
| SuccessiveReads.CheckThenFetch | p2p/rpc.go:59-131 | the number that AppendRecord finds for a confirmed append gets its data back from ReadRecord |
| SuccessiveReads.ReadAddCheck | bclib/blockchain_rfs.go:187-263 | a record that GetFile shows is reported as confirmed once one more block has been added to the chain |
| Blockchains.Blockchain.GetPreviousBlocks | bclib/blockchain.go:258-276 | the blocks above a known hash, also on a detached cycle; nothing for an unknown one |
| Blockchains.Blockchain.GetBlocks | bclib/blockchain.go:160-168 | every block once, in any order |
| Reversal.ReverseInwards | bclib/blockchain_rfs.go:218-221 | swapping from both ends reverses the array |
| Reversal.ReverseToMiddle | p2p/blockchain_manager.go:224-228 | swapping up to the middle reverses the array |
| FileViews.ReadsAreAppendOnly | bclib/blockchain_rfs.go:187-230 | while the longest chain descends from the old confirmed block, the old records are a prefix of the new ones |
| FileViews.RecordsAreDistinct | bclib/blockchain_rfs.go:194-221 | where operation IDs do not repeat, a file has no two records with one ID |
| FileViews.ConfirmedExactly | bclib/blockchain_rfs.go:232-255 | on a chain without repeated IDs an append is confirmed exactly when it is on the chain without its newest confirmsPerFileAppend + 1 blocks; any other operation, with confirmsPerFileCreate + 1 |
| FileViews.ConfirmedIsSettled | bclib/blockchain_rfs.go:236-255 | on any chain: confirmed exactly when the ID is on the chain but not in those newest blocks |
| FileViews.SeenIsConfirmedNext | bclib/blockchain_rfs.go:187-263 | whatever the views see is confirmed in every later ledger whose longest chain is longer and runs through the newest block they saw |
| ViewPlaces.RecordsByPlace | bclib/blockchain_rfs.go:194-221 | the records are all appends to the file on the chain, older blocks first and within a block the later operation first |
| ViewPlaces.FileByPlace | bclib/blockchain_rfs.go:187-230 | GetFile shows exactly the appends in blocks that at least the threshold of blocks follow, in that order, and whether such a block names or deletes the file |
| ViewPlaces.NamesByPlace | bclib/blockchain_rfs.go:130-154 | ListFiles lists exactly the names that occur in blocks that at least the threshold of blocks follow |
| ViewPlaces.ClashByPlace | bclib/blockchain_rfs.go:244-256 | another miner is reported exactly when a create meets another miner's operation on its file no later than itself, newer blocks first |
| FileViews.ConfirmedIsVisible | bclib/blockchain_rfs.go:232-263 | a confirmed append is a record of its file, which GetFile sees; the file of any other confirmed operation is listed, and that of an append too if the create threshold is not the higher one |
| FileViews.StaysConfirmed | bclib/blockchain_rfs.go:232-263 | a confirmed operation stays confirmed in every later ledger whose longest chain runs through its block |
| FileViews.SeenIsListed | bclib/blockchain_rfs.go:130-154 | with the append threshold at least the create threshold, every file that GetFile sees is listed |
| ClientRecords.FindIndex | p2p/rpc.go:124-131 | the last index with the ID, or 0 if there is none |
| ClientRecords.AppendedIndex | p2p/rpc.go:118-131 | the index in the confirmed file on the chain of the first tip, or the error when the file is not there |
| ClientRecords.ReadRecord | p2p/rpc.go:44-77 | one round: the errors in order, the record at that number on the chain of the first tip, or not yet |
| ClientRecords.IndexKeepsNamingTheRecord | p2p/rpc.go:118-131 | the index found for a confirmed append names that record in every later ledger on the same chain, and no other index does |
| Serialization.UnmarshallBlockchain | bclib/blockchain.go:174-212 | fails exactly when a parent or a genesis is missing; otherwise links exactly the given table, even one with detached cycles, and finds its tips |
| Serialization.LinkAll | bclib/blockchain.go:182-197 | visiting the keys in any order links every node to its parent, or reports that one is missing |
| Serialization.LinkChild | bclib/blockchain.go:195-196 | one link changes one parent and keeps pointers consistent |
| Serialization.RebuildsExactly | bclib/blockchain.go:160-212 | a ledger is rebuilt by sending and linking it, whatever root is met, exactly when genesis is its only block without a previous hash |
| Serialization.RunsArePortable | bclib/blockchain.go:49-74 | every run from a named genesis over blocks with hashes gives such a ledger |
| Serialization.TableOfListing | bclib/blockchain.go:178-180 | any order of GetBlocks gives the ledger's own table |
| Serialization.LinkableByList | bclib/blockchain.go:178-201 | a list can be linked exactly when every block that is the last with its hash names no parent or one in the list, and one of them names none |
| Serialization.LinkedByList | bclib/blockchain.go:178-197 | in the linked ledger every such block hangs below the block that it names |
| Serialization.Synchronize | p2p/blockchain_manager.go:71-86 | the ledger is replaced exactly when the received list can be linked |
| Serialization.Adopt | p2p/blockchain_manager.go:71-86 | synchronising with the blocks of a portable ledger reproduces that ledger |
| Serialization.DialPeer | p2p/p2p_rpc.go:86-115 | for any received list: more than one block replaces the ledger if they can be linked and stays unanswered if not; the answer lists what is held then |
| Serialization.DialHandshake | p2p/p2p_rpc.go:579-600 | both miners end with the same tree: the caller's if it had more than genesis, otherwise the callee's |
| LedgerNetwork.MoveKeepsOrder | p2p/p2p_rpc.go:579-600 | a call of AddBlock or a handshake keeps every ledger of the network sound, able to be sent and linked again, and free of empty hashes |
| LedgerNetwork.EveryLedgerStaysSound | p2p/p2p_rpc.go:86-115 | for any number of miners that start from new chains, and any interleaving of AddBlock calls and handshakes: no ledger ever has overspending or a repeated ID on the path to any block, and each survives being sent |
| CatchUp.CatchUpSuffices | p2p/blockchain_manager.go:219-231 | offered a segment of an honest ledger in order, a ledger that holds its oldest block or that block's parent has each block right after its offer, and ends with the whole chain, for any rule that looks at miners and operations only |
| CatchUpServed.ServedSegmentCatchesUp | p2p/p2p_rpc.go:162-171 | the blocks served for a hash bring such a ledger, under the rule of AddBlock, up to that hash |
| CatchUp.SegmentIsAccepted | p2p/blockchain_manager.go:219-231 | after each offer of the segment the block just offered is present and the two ledgers still agree |
| CatchUpRuns.StepKeepsCatchingUp | p2p/blockchain_manager.go:88-154 | every step of the manager keeps each missing block of the segment queued behind its parent, or present |
| CatchUpRuns.CatchUpUnderAnyInterleaving | p2p/blockchain_manager.go:118-154 | after a download, in any interleaving with other events, once no block of the segment is queued the whole segment is in the ledger |
| ManagerSteps.Step | p2p/blockchain_manager.go:88-154 | every step but synchronisation keeps the tree rooted and only grows it |
| Downloads.RequestsMatchAnswers | p2p/blockchain_manager.go:109-134 | in every run, requests sent are the answers received plus one while blocks are kept |
| Downloads.SurvivesAnswerExactly | p2p/blockchain_manager.go:118-134 | in every run the manager survives an answer exactly when fewer answers have come than requests were sent |
| Downloads.SecondAnswerFails | p2p/p2p_rpc.go:430-461 | when two peers have sent one orphan and both answer, the second answer finds nothing kept |
| ChainManagers.ChainManager.Sync | p2p/blockchain_manager.go:71-86 | replaces the ledger exactly when the list can be linked, by what it links to; the queues stay as they are |
| ChainManagers.ChainManager.SyncWith | p2p/blockchain_manager.go:71-86 | given the blocks of a ledger that can be sent, the manager's ledger is that one then; blocks held before may be gone |
| ChainManagers.ChainManager.ReceiveNext | p2p/blockchain_manager.go:88-116 | on any linked ledger, the receive case is the receive step |
| ChainManagers.ChainManager.TakeReceived | p2p/blockchain_manager.go:94-116 | which of the queues, the replay map and the download requests change, for each of the four cases |
| ChainManagers.ChainManager.ReplaySlice | p2p/blockchain_manager.go:120-128 | the downloaded blocks followed by the kept ones, and their hashes marked |
| ChainManagers.ChainManager.DownloadDone | p2p/blockchain_manager.go:118-134 | with a block kept, the download case is the download step |
| ChainManagers.ChainManager.AddNext | p2p/blockchain_manager.go:136-150 | if walking up from the parent ends, the add case offers the block, and sends it on exactly when it was accepted |
| ChainManagers.ChainManager.GetPreviousBlocks | p2p/blockchain_manager.go:219-231 | the same blocks reversed, on any linked ledger: oldest first, the requested block twice at the end |
| ChainManagers.ChainManager.ServedIsNewest | p2p/blockchain_manager.go:219-231 | where walking up ends, that is the newest segment of the chain and its last block again |
| PeerManagers.PeerManager.NewPeer | p2p/p2p_rpc.go:421-425 | the peer joins the set of peers, and mining and the clients' server are told |
| PeerManagers.PeerManager.ReceivedBlock | p2p/p2p_rpc.go:429-440 | remembers who sent the block and hands it on: one delivery of the flooding protocol |
| PeerManagers.PeerManager.SendBlock | p2p/p2p_rpc.go:463-487 | the request goes once to each peer that has not sent us the block |
| PeerManagers.PeerManager.FloodOperation | p2p/p2p_rpc.go:491-523 | goes once to each peer not ignored; the new list is the old one with all peers and ourselves: one move of the gossip |
| PeerManagers.PeerManager.ListOf | p2p/p2p_rpc.go:544-552 | each member of the set once |
| BlockFlooding.StepOk | p2p/blockchain_manager.go:88-150 | whatever a manager does, a block it holds in a queue or ledger stays there, and a newly accepted one is queued for sending |
| BlockFlooding.MoveKeepsFlooding | p2p/p2p_rpc.go:429-487 | every delivery, local step and flood keeps the invariant: who has sent a block has it, and a miner that has flooded it leaves no peer without it or a copy on the way |
| BlockFlooding.EveryLinkedMinerGetsIt | p2p/p2p_rpc.go:463-487 | in any run, once nothing of an acceptable block is left to handle, every miner linked to one that has it has it; every peer skipped has it at all times |
| BlockFlooding.MoveConservesFloods | p2p/blockchain_manager.go:136-150 | floods made or queued minus ledger membership never changes: an acceptance is flooded and nothing else is |
| BlockFlooding.FloodsEachBlockOnce | p2p/p2p_rpc.go:463-487 | in any run a miner floods a block at most once, and only if it accepted it during the run |
| BlockFlooding.CopiesAreBounded | p2p/p2p_rpc.go:463-487 | in any run no more copies of a block are ever sent than the miners have peers, all together |
| BlockFlooding.NeverSentBack | p2p/p2p_rpc.go:429-487 | in any run a miner that floods a block sends no copy to a peer that it has had a copy from |
| OperationFlooding.MoveKeepsCovered | p2p/p2p_rpc.go:491-523 | every delivery keeps: all ignored miners, and all peers of a miner that has the operation, have it or are being sent it |
| OperationFlooding.EveryLinkedMinerIsTold | p2p/p2p_rpc.go:491-523 | when no message is left, every miner linked to the origin has the operation |
| OperationFlooding.OnlyLinkedMinersAreTold | p2p/p2p_rpc.go:153-160 | whoever has or is being sent the operation is linked to the origin |
| OperationFlooding.NeverSentToTheOrigin | p2p/p2p_rpc.go:491-523 | in any run, once the origin has sent its operation out, every message ignores the origin and goes to someone else |
| OperationFlooding.CopiesWeighLess | p2p/p2p_rpc.go:500-523 | all copies made of a message together weigh less than it did |
| OperationFlooding.MoveWeighsLess | p2p/p2p_rpc.go:491-523 | the weight of the messages under way falls at every delivery |
| OperationFlooding.FloodingEnds | p2p/p2p_rpc.go:491-523 | among N miners one flood request causes at most (N + 1) to the power N deliveries |
| OperationFlooding.StuckIsSilent | p2p/p2p_rpc.go:491-523 | a run that cannot go on has no message left |
| ChainResolvers.ChainResolver.HasBlock | p2p/chain_resolver.go:133-140 | whether a block of the list has the hash |
| ChainResolvers.ChainResolver.AddPendingDownload | p2p/chain_resolver.go:80-91 | the block joins its parent's list unless its hash is there |
| ChainResolvers.ChainResolver.FindPendingDownloadForBlock | p2p/chain_resolver.go:102-119 | the chase ends when waiting entries are ranked, and enlists the block under everything its parent waits for |
| ChainResolvers.ChainResolver.ResolveFloodedBlock | p2p/chain_resolver.go:25-62 | the new maps and the download request, for each of the four branches |
| ChainResolvers.ChainResolver.ResolveAddedBlock | p2p/chain_resolver.go:67-78 | emits exactly the pending list of the hash and forgets it and its waiting entries |
| Resolutions.AsksOnce | p2p/chain_resolver.go:25-62 | in a consistent state a parent is asked for exactly when nothing is pending on it |
| Resolutions.ConsistentIsRanked | p2p/chain_resolver.go:102-119 | with acyclic parent links the chase of a consistent resolver ends |
| Resolutions.ChaseReaches | p2p/chain_resolver.go:102-119 | the chase lists the block under everything that its parent waits for, up to the first missing entry |
| Resolutions.RunIsConsistent | p2p/chain_resolver.go:25-91 | in every run: lists have no repeated hash and hold only descendants of their key, and every waiting entry names the parent, whose list has the block |
| Resolutions.NothingIsLost | p2p/chain_resolver.go:25-78 | in every run an offered block is on its parent's list until resolving the parent emits it |
| Resolutions.OnlyOfferedIsHeld | p2p/chain_resolver.go:25-91 | whatever is pending has been offered |
| Filtering.FilterInvalidOperations | bclib/operation.go:45-72 | leaves the slice sorted; the IDs of appends and deletes and the names of creates are all kept, each once, in order of time and from an earliest operation |
| Filtering.FirstsFilter | bclib/operation.go:53-71 | the operations without an earlier rival have no rivals among them, and each dropped one has an earlier rival kept |
| Filtering.EarliestIsKept | bclib/operation.go:49-71 | for every operation some rival at least as early is kept |
| Filtering.FilterKeepsEarliest | bclib/operation.go:53-71 | the same for any list without rivals that covers the given one: no ID and no name is lost, added or kept twice, and what is kept is an earliest of its ID or name |
| Choosing.OneTipChoice | mining/worker.go:47-60 | with one tip the chosen operations were validated at the chosen parent |
| Choosing.FitIsAdded | bclib/blockchain.go:76-96 | a block mined on a choice with a fresh hash is accepted exactly when its operations are acceptable at its parent |
| Choosing.AgreeingTipsAccept | mining/worker.go:47-66 | for any list and any number of tips: if whatever can be selected at one tip is acceptable at all of them, AddBlock accepts the mined block |
| Choosing.TwoTipsExactly | mining/worker.go:53-66 | for two tips and any filtered list: every map order leads to an acceptable block exactly when whatever can be selected at the first tip is acceptable at the second |
| Choosing.MinesIfAffordable | mining/worker.go:53-62 | a block is mined if an operation without conflicts is affordable at the first tip, with one tip only then; its operations come from the list |
| Choosing.MinedBlockIsAccepted | mining/worker.go:47-66 | with one tip, filtered operations, a nonce found and a fresh hash, AddBlock accepts the mined block |
| Choosing.LoopSettles | mining/worker.go:53-60 | for one operation and any number of tips: where the loop stands after each tip, and why |
| Choosing.SeveralTipsVerdict | mining/worker.go:53-66 | for one operation and any number of tips: a block is mined exactly when the operation is acceptable at a tip before the last (or at the only one), and accepted exactly when, once acceptable at a tip, it is acceptable at all later ones |
| Choosing.CompetingBlocks | mining/worker.go:53-62 | under every digest and every difficulty of blocks with operations there are two blocks that compete for one parent, and an operation that can be paid on the left one's chain only |
| Choosing.ForkMines | mining/worker.go:53-62 | after any two such blocks have been added, with the tips in the order of the search, the worker does mine |
| Choosing.RefusedOnTwoTips | mining/worker.go:53-66 | every block that it mines there, in any map order and with any nonce, is refused; if its proof of work holds and its hash is new, because of its operation |
| Workers.BuildFork | bclib/blockchain.go:49-74 | two calls of AddBlock on a new chain build that ledger, with its child lists in that order |
| Workers.MineOnFork | mining/worker.go:46-66 | on the real ledger the operation passes the filter, a block is mined from it, and AddBlock refuses that block |
| Workers.OnlyOne | bclib/operation.go:45-72 | the filter returns a batch of one as it is, whatever the sort |
| Workers.Choose | mining/worker.go:49-60 | on the real ledger the loop ends in one of the outcomes described by its turns |
| Workers.MineOperations | mining/worker.go:46-66 | a batch is filtered, and a block is mined on an outcome of the loop over the listed tips exactly when that outcome has operations |
| Workers.MinedWell | mining/worker.go:46-66 | the block is mined on a tip from operations of the filtered batch; with one tip one is mined exactly when an operation is affordable, and AddBlock accepts it |
| Workers.MineNoOp | mining/worker.go:75-82 | the block without operations is mined on the first tip at its own difficulty; with a nonce found and a fresh hash AddBlock accepts it |

## Left out

- TCP connections, RPC registration, listeners, heartbeats, timers and logging: only message contents and state changes are modelled.
- gob encoding and MD5: they enter as the function value `md5`, of which nothing is assumed. prepareData joins its parts without separators; here they are kept apart, so two blocks whose joined bytes are the same count as a collision.
- Machine integers: coins, counters and nonces are unbounded; settings are natural numbers rather than bytes.
- Channel capacities and blocking: queues are unbounded and every event loop case is one step, so deadlock is not modelled.
- Liveness: results say what holds when nothing is left to handle; for operation gossip the end is proved, for block gossip and downloads it is not.
- Changing links, lost messages and a re-sync in the middle of a flood: both gossip results are for fixed links and reliable delivery, and follow one block or one operation; messages about different ones do not touch each other.
- Serialization.DialHandshake: is run without interruption; that a list which cannot be linked leaves the caller waiting is what DialPeer says.
- Synchronisation is outside the step machine of ManagerSteps, so the flooding and catch-up results are for runs without it; LedgerNetwork says what holds with it.
- An operation that is not yet on the chain is flooded again by its origin with each new block; each such request is a run of its own.
- Choosing.TwoTipsExactly: is exact for two tips; with more tips and several operations the sufficient condition is AgreeingTipsAccept.
- Workers.MineOperations: the ledger does not change while the worker mines.
- The race between mining with and without operations (the stop channels of StartMining) and the nonce check of startMining; each of the two blocks is modelled by itself.
- Removal of failed peers and the peer chosen for a download: the download is an event that brings any matching segment.
- The confirmed-files cache, clientOps and the polling of CheckOpConfirmed in p2p/rpc.go: bookkeeping around the file views.
- MergeBlocks: it has no caller and links existing children a second time, so it does not keep the tree consistent.
- rfslib, settings, miner.go and bclib/transaction.go: a thin client, a loader, start-up, and unused records.
