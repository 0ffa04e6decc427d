/** The rules of AddBlock, and what holds after any run of AddBlock calls. */
module Ledger {
  import opened Types
  import opened BlockTree
  import opened Growth
  import opened Accounting
  import opened ProofOfWork

  function Difficulty(cfg: Settings, b: Block): nat {
    if |b.operations| > 0 then cfg.powPerOpBlock else cfg.powPerNoOpBlock
  }

  predicate PowHolds(rules: Rules, b: Block) {
    Mined(rules.md5, b, Difficulty(rules.cfg, b))
  }

  /** `b` may follow the chain. */
  ghost predicate Admissible(rules: Rules, chain: seq<Block>, b: Block) {
    PowHolds(rules, b) && Acceptable(rules.cfg, chain, b.operations)
  }

  ghost function RuleOf(rules: Rules): Rule {
    (chain: seq<Block>, b: Block) => Admissible(rules, chain, b)
  }

  datatype AddResult = Added | AlreadyExists | PowFailed | OperationsInvalid | MissingPrevious

  /** The answer of AddBlock: the first check that fails decides. */
  ghost function Verdict(rules: Rules, t: Tree, b: Block): (r: AddResult)
    requires b.previousHash in t.blocks ==> Grounded(t, b.previousHash)
    ensures r.Added? <==> Fits(RuleOf(rules), t, b)
  {
    if b.hash in t.blocks then AlreadyExists
    else if !PowHolds(rules, b) then PowFailed
    else if b.previousHash !in t.blocks then (if b.operations == [] then MissingPrevious else OperationsInvalid)
    else if Acceptable(rules.cfg, Chain(t, b.previousHash), b.operations) then Added
    else OperationsInvalid
  }

  function GenesisBlock(cfg: Settings, now: int): Block {
    Block(now, [], [], "", cfg.genesisBlockHash, 0)
  }

  /** The tree of a new chain after the given AddBlock calls. */
  ghost function After(rules: Rules, now: int, bs: seq<Block>): (t: Tree)
    ensures Rooted(t)
  {
    OfferAll(RuleOf(rules), Single(GenesisBlock(rules.cfg, now)), bs)
  }

  /** Every block but the genesis block is admissible where it stands, and genesis does nothing. */
  ghost predicate Sound(rules: Rules, t: Tree) {
    Honest(RuleOf(rules), t) && t.blocks[t.genesis].operations == []
  }

  lemma AfterIsSound(rules: Rules, now: int, bs: seq<Block>)
    ensures Sound(rules, After(rules, now, bs))
  {
    RunIsHonest(RuleOf(rules), Single(GenesisBlock(rules.cfg, now)), bs, |bs|);
  }

  // ---------- proof of work ----------

  /** The digest of the block's own fields ends in that many hexadecimal zeroes. */
  predicate HasZeroes(md5: PowData -> Hash, b: Block, zeroes: nat) {
    var data := PowData(b.previousHash, b.operations, b.minerID, b.timestamp, 4 * zeroes, b.nonce);
    EndsInZeroes(HexDigits(md5(data)), zeroes)
  }

  /** Blocks with operations and blocks without have their own difficulties. */
  predicate WellMined(rules: Rules, b: Block) {
    && (b.operations == [] ==> HasZeroes(rules.md5, b, rules.cfg.powPerNoOpBlock))
    && (b.operations != [] ==> HasZeroes(rules.md5, b, rules.cfg.powPerOpBlock))
  }

  lemma RuleAsksForWork(rules: Rules, chain: seq<Block>, b: Block)
    requires RuleOf(rules)(chain, b)
    ensures WellMined(rules, b)
  {
  }

  lemma RuleHolds(rule: Rule, t: Tree, h: Hash)
    requires Honest(rule, t) && h in t.parent
    ensures h in t.blocks && Grounded(t, t.parent[h]) && rule(Chain(t, t.parent[h]), t.blocks[h])
  {
  }

  /** After any run from a new chain, every block but genesis has the zeroes that its kind needs. */
  lemma EveryBlockIsWellMined(rules: Rules, now: int, bs: seq<Block>, h: Hash)
    requires h in After(rules, now, bs).blocks && h != rules.cfg.genesisBlockHash
    ensures WellMined(rules, After(rules, now, bs).blocks[h])
  {
    var t := After(rules, now, bs);
    AfterIsSound(rules, now, bs);
    RootedParents(t, h);
    RuleHolds(RuleOf(rules), t, h);
    RuleAsksForWork(rules, Chain(t, t.parent[h]), t.blocks[h]);
  }

  lemma NothingMayFollow(cfg: Settings, chain: seq<Block>)
    ensures MayFollow(cfg, chain, [])
  {
  }

  /** When AddBlock answers what. It adds exactly the new blocks that are well mined, have a known parent and may follow
      its chain. A missing parent is reported for a block without operations only: for one with operations it is the
      operations that fail. */
  lemma VerdictWrittenOut(rules: Rules, t: Tree, b: Block)
    requires b.previousHash in t.blocks ==> Grounded(t, b.previousHash)
    ensures Verdict(rules, t, b) == AlreadyExists <==> b.hash in t.blocks
    ensures Verdict(rules, t, b) == PowFailed <==> b.hash !in t.blocks && !WellMined(rules, b)
    ensures Verdict(rules, t, b) == Added <==>
              && b.hash !in t.blocks && WellMined(rules, b)
              && b.previousHash in t.blocks && MayFollow(rules.cfg, Chain(t, b.previousHash), b.operations)
    ensures Verdict(rules, t, b) == MissingPrevious <==>
              b.hash !in t.blocks && WellMined(rules, b) && b.previousHash !in t.blocks && b.operations == []
    ensures Verdict(rules, t, b) == OperationsInvalid <==>
              && b.hash !in t.blocks && WellMined(rules, b) && b.operations != []
              && (b.previousHash in t.blocks ==> !MayFollow(rules.cfg, Chain(t, b.previousHash), b.operations))
  {
    if b.previousHash in t.blocks {
      AcceptableByCounting(rules.cfg, Chain(t, b.previousHash), b.operations);
      NothingMayFollow(rules.cfg, Chain(t, b.previousHash));
    }
  }

  // ---------- no overspending ----------

  lemma {:induction false} PayersStaySolvent(cfg: Settings, chain: seq<Block>, b: Block, m: string)
    requires Acceptable(cfg, chain, b.operations) && Balance(cfg, chain, m) >= 0
    ensures Balance(cfg, chain + [b], m) >= 0
  {
    assert (chain + [b])[..|chain|] == chain;
    if m !in MinersOf(b.operations) {
      NoOpsNoCost(cfg, b.operations, m);
    }
  }

  lemma {:induction false} NoOpsNoCost(cfg: Settings, ops: seq<Operation>, m: string)
    requires m !in MinersOf(ops)
    ensures Spent(cfg, ops, m) == 0
  {
    if ops != [] {
      var front, o := ops[..|ops| - 1], ops[|ops| - 1];
      assert o in ops && o.minerID in MinersOf(ops);
      assert MinersOf(front) <= MinersOf(ops);
      NoOpsNoCost(cfg, front, m);
    }
  }

  lemma {:induction false} SoundChainIsSolvent(rules: Rules, t: Tree, c: seq<Block>, m: string)
    requires Sound(rules, t) && IsChain(t, c)
    ensures Balance(rules.cfg, c, m) >= 0
    decreases |c|
  {
    var front, b := c[..|c| - 1], c[|c| - 1];
    if |c| == 1 {
      RootedChainStart(t, c);
      assert front == [];
    } else {
      ChainPrefix(t, c, |c| - 1);
      SoundChainIsSolvent(rules, t, front, m);
      HonestChain(RuleOf(rules), t, c, |c| - 1);
      assert c == front + [b];
      PayersStaySolvent(rules.cfg, front, b, m);
    }
  }

  /** After any run from a new chain, on any fork, no miner has spent more than it mined. */
  lemma NoOverspending(rules: Rules, now: int, bs: seq<Block>, h: Hash, m: string)
    requires h in After(rules, now, bs).blocks
    ensures Balance(rules.cfg, Chain(After(rules, now, bs), h), m) >= 0
    ensures var c := Chain(After(rules, now, bs), h); Price(rules.cfg, OpsOn(c), m) <= Income(rules.cfg, c, m)
  {
    var t := After(rules, now, bs);
    AfterIsSound(rules, now, bs);
    SoundChainIsSolvent(rules, t, Chain(t, h), m);
    BalanceByCounting(rules.cfg, Chain(t, h), m);
  }

  // ---------- operation IDs never repeat ----------

  lemma {:induction false} SoundChainHasDistinctIds(rules: Rules, t: Tree, c: seq<Block>)
    requires Sound(rules, t) && IsChain(t, c)
    ensures DistinctIds(OpsOn(c))
    decreases |c|
  {
    var front, b := c[..|c| - 1], c[|c| - 1];
    if |c| == 1 {
      RootedChainStart(t, c);
      assert front == [];
    } else {
      ChainPrefix(t, c, |c| - 1);
      SoundChainHasDistinctIds(rules, t, front);
      HonestChain(RuleOf(rules), t, c, |c| - 1);
      DistinctConcat(OpsOn(front), b.operations);
    }
  }

  /** After any run from a new chain, no operation ID occurs twice on the way to any block. */
  lemma UniqueOperations(rules: Rules, now: int, bs: seq<Block>, h: Hash)
    requires h in After(rules, now, bs).blocks
    ensures DistinctIds(OpsOn(Chain(After(rules, now, bs), h)))
  {
    var t := After(rules, now, bs);
    AfterIsSound(rules, now, bs);
    SoundChainHasDistinctIds(rules, t, Chain(t, h));
  }

  // ---------- files created twice ----------

  lemma {:induction false} SoundChainCreates(rules: Rules, t: Tree, c: seq<Block>, i: nat, j: nat, p: Operation,
                                             o: Operation)
    requires Sound(rules, t) && IsChain(t, c) && i < j < |c|
    requires p in c[i].operations && o in c[j].operations
    requires p.op.Create? && o.op.Create? && p.filename == o.filename
    ensures p.minerID !in MinersOf(c[j].operations)
  {
    HonestChain(RuleOf(rules), t, c, j);
    OpsOnHas(c[..j], i, p);
    var miners := MinersOf(c[j].operations);
    assert o.minerID in miners && o.filename in CreatesIn(c[j].operations, miners);
    assert p.minerID in miners ==> p.filename in CreatesIn(OpsOn(c[..j]), miners);
  }

  /** After any run from a new chain, on the way to any block: if a file is created again in a later block, whoever
      created it before has no operation in that block. So nobody creates a file again in a later block. */
  lemma NobodyCreatesAgain(rules: Rules, now: int, bs: seq<Block>, h: Hash, i: nat, j: nat, p: Operation, o: Operation)
    requires h in After(rules, now, bs).blocks && i < j < |Chain(After(rules, now, bs), h)|
    requires var c := Chain(After(rules, now, bs), h); p in c[i].operations && o in c[j].operations
    requires p.op.Create? && o.op.Create? && p.filename == o.filename
    ensures p.minerID !in MinersOf(Chain(After(rules, now, bs), h)[j].operations) && p.minerID != o.minerID
  {
    var t := After(rules, now, bs);
    AfterIsSound(rules, now, bs);
    SoundChainCreates(rules, t, Chain(t, h), i, j, p, o);
    assert o.minerID in MinersOf(Chain(t, h)[j].operations);
  }

  /** But two miners can both create one file: the later creator is not asked about the earlier one's file. The list of
      the later block is acceptable whenever its ID is new and it can be paid, by someone who has created nothing. */
  lemma {:induction false} OthersFilesDoNotCount(cfg: Settings, chain: seq<Block>, o: Operation)
    requires o.operationID !in IdsIn(OpsOn(chain)) && Cost(cfg, o) <= Balance(cfg, chain, o.minerID)
    requires forall p :: p in OpsOn(chain) && p.op.Create? ==> p.minerID != o.minerID
    ensures Acceptable(cfg, chain, [o])
  {
    var none: seq<Operation> := [];
    assert [o][..0] == none && Spent(cfg, none, o.minerID) == 0;
    assert MinersOf([o]) == {o.minerID} && IdsIn([o]) == {o.operationID};
  }

  /** Three blocks of one chain: the first pays the first creator, the second holds its create and pays the second
      creator, the third holds the second create. */
  ghost predicate CreatesTwice(rules: Rules, a: Block, b: Block, c: Block, p: Operation, o: Operation) {
    var cfg := rules.cfg;
    && a.previousHash == cfg.genesisBlockHash && b.previousHash == a.hash && c.previousHash == b.hash
    && cfg.genesisBlockHash !in {a.hash, b.hash, c.hash} && a.hash != b.hash && a.hash != c.hash && b.hash != c.hash
    && a.operations == [] && b.operations == [p] && c.operations == [o]
    && PowHolds(rules, a) && PowHolds(rules, b) && PowHolds(rules, c)
    && p.op.Create? && o.op.Create? && p.filename == o.filename && p.operationID != o.operationID
    && p.minerID != o.minerID && "" !in {p.minerID, o.minerID}
    && p.minerID == a.minerID && o.minerID == b.minerID
    && cfg.numCoinsPerFileCreate <= cfg.minedCoinsPerNoOpBlock && cfg.numCoinsPerFileCreate <= cfg.minedCoinsPerOpBlock
  }

  lemma {:induction false} BalanceSnoc(cfg: Settings, chain: seq<Block>, b: Block, m: string)
    ensures OpsOn(chain + [b]) == OpsOn(chain) + b.operations
    ensures Balance(cfg, chain + [b], m)
            == Balance(cfg, chain, m) + (if b.minerID == m then Reward(cfg, b) else 0) - Spent(cfg, b.operations, m)
  {
    assert (chain + [b])[..|chain|] == chain;
  }

  lemma {:induction false} CreatesTwiceAcceptable(rules: Rules, now: int, a: Block, b: Block, c: Block, p: Operation,
                                                  o: Operation)
    requires CreatesTwice(rules, a, b, c, p, o)
    ensures var g := GenesisBlock(rules.cfg, now);
            && Admissible(rules, [g], a) && Admissible(rules, [g] + [a], b) && Admissible(rules, [g] + [a] + [b], c)
  {
    var cfg, g, none: seq<Block> := rules.cfg, GenesisBlock(rules.cfg, now), [];
    assert none + [g] == [g] && OpsOn(none) == [];
    BalanceSnoc(cfg, none, g, p.minerID);
    BalanceSnoc(cfg, none, g, o.minerID);
    BalanceSnoc(cfg, [g], a, p.minerID);
    BalanceSnoc(cfg, [g], a, o.minerID);
    OthersFilesDoNotCount(cfg, [g] + [a], p);
    BalanceSnoc(cfg, [g] + [a], b, o.minerID);
    assert [p][..0] == [] && Spent(cfg, [p], o.minerID) == 0;
    assert OpsOn([g] + [a] + [b]) == [p];
    OthersFilesDoNotCount(cfg, [g] + [a] + [b], o);
  }

  /** The run that adds them accepts all three: a reachable ledger on which one file is created twice. */
  lemma {:induction false} OneFileTwoCreators(rules: Rules, now: int, a: Block, b: Block, c: Block, p: Operation,
                                              o: Operation)
    requires CreatesTwice(rules, a, b, c, p, o)
    ensures var t := After(rules, now, [a, b, c]);
            c.hash in t.blocks && Chain(t, c.hash) == [GenesisBlock(rules.cfg, now), a, b, c]
  {
    var rule, g := RuleOf(rules), GenesisBlock(rules.cfg, now);
    var chain := [g, a, b, c];
    CreatesTwiceAcceptable(rules, now, a, b, c, p, o);
    assert chain[..1] == [g] && chain[..2] == [g] + [a] && chain[..3] == [g] + [a] + [b];
    assert forall i {:trigger Follows(rule, chain, i)} :: Follows(rule, chain, i) by {
      assert Follows(rule, chain, 1) && Follows(rule, chain, 2) && Follows(rule, chain, 3);
    }
    RunOfChain(rule, chain, 3);
    assert chain[1..] == [a, b, c] && chain[..4] == chain;
    ChainIs(After(rules, now, [a, b, c]), chain);
  }

  /** There are such blocks under every digest. */
  lemma {:induction false} BlocksThatCreateTwice(md5: PowData -> Hash)
    returns (rules: Rules, a: Block, b: Block, c: Block, p: Operation, o: Operation)
    ensures rules.md5 == md5 && CreatesTwice(rules, a, b, c, p, o)
  {
    rules := Rules(Settings(1, 1, 1, 0, 0, 0, 0, [0]), md5);
    p, o := Operation(Create, [], "f", "a", "1", 0), Operation(Create, [], "f", "b", "2", 0);
    a, b, c := Block(0, [], [0], "a", [1], 1), Block(0, [p], [1], "b", [2], 1), Block(0, [o], [2], "a", [3], 1);
    assert [0][0] == 0 && [1][0] == 1 && [2][0] == 2 && [3][0] == 3;
    assert p.minerID[0] != o.minerID[0] && p.operationID[0] != o.operationID[0];
  }
}
