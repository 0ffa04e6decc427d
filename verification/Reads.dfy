/** What successive reads of one ledger have to do with each other. Every read searches for the longest chains anew;
    as the ledger does not change in between, all of them go by the same tip. */
module SuccessiveReads {
  import opened Types
  import opened BlockTree
  import opened Growth
  import opened Accounting
  import opened Ledger
  import opened FileViews
  import opened Blockchains
  import opened ClientRecords

  /** The chain that all reads go by. */
  ghost function TheChain(bc: Blockchain): seq<Block>
    requires bc.Wired()
    reads bc, bc.m.Values
  {
    bc.FirstTip();
    Chain(bc.View(), bc.Tips()[0])
  }

  /** A search changes nothing that reads depend on. */
  twostate lemma SearchKeepsChain(bc: Blockchain)
    requires old(bc.Wired()) && bc.Wired() && bc.m == old(bc.m) && bc.genesis == old(bc.genesis)
    requires forall h :: h in bc.m ==>
            bc.m[h].parent == old(bc.m[h].parent) && bc.m[h].children == old(bc.m[h].children)
    ensures TheChain(bc) == old(TheChain(bc))
  {
    assert bc.View() == old(bc.View());
    assert bc.Kids() == old(bc.Kids());
  }

  // ---------- single reads of a known chain ----------

  method Count(bc: Blockchain, fname: string, ghost c: seq<Block>) returns (numRecs: int, ok: bool)
    requires bc.Wired() && c == TheChain(bc)
    modifies bc`lastNode
    ensures bc.Wired() && c == TheChain(bc)
    ensures ShowsCount(c, bc.config.confirmsPerFileAppend, fname, numRecs, ok)
  {
    numRecs, ok := bc.NumRecs(fname);
    SearchKeepsChain(bc);
  }

  method Read(bc: Blockchain, fname: string, ghost c: seq<Block>) returns (file: FileOps, ok: bool)
    requires bc.Wired() && c == TheChain(bc)
    modifies bc`lastNode
    ensures bc.Wired() && c == TheChain(bc)
    ensures ShowsFile(c, bc.config.confirmsPerFileAppend, fname, file, ok)
  {
    file, ok := bc.GetFile(fname);
    SearchKeepsChain(bc);
  }

  method List(bc: Blockchain, ghost c: seq<Block>) returns (list: seq<string>)
    requires bc.Wired() && c == TheChain(bc)
    modifies bc`lastNode
    ensures bc.Wired() && c == TheChain(bc)
    ensures ShowsNames(c, bc.config.confirmsPerFileCreate, list)
  {
    list := bc.ListFiles();
    SearchKeepsChain(bc);
  }

  method Check(bc: Blockchain, o: Operation, ghost c: seq<Block>) returns (confirmed: bool)
    requires bc.Wired() && c == TheChain(bc)
    modifies bc`lastNode
    ensures bc.Wired() && c == TheChain(bc) && (confirmed <==> IsConfirmed(bc.config, c, o))
  {
    var exists_, otherMiner;
    confirmed, exists_, otherMiner := bc.CheckOpConfirmed(o);
    SearchKeepsChain(bc);
  }

  method Index(bc: Blockchain, o: Operation, ghost c: seq<Block>) returns (resp: Reply<nat>)
    requires bc.Wired() && c == TheChain(bc)
    modifies bc`lastNode
    ensures bc.Wired() && c == TheChain(bc) && AnswersIndex(c, bc.config.confirmsPerFileAppend, o, resp)
  {
    resp := AppendedIndex(bc, o);
    SearchKeepsChain(bc);
  }

  method Fetch(bc: Blockchain, fname: string, recNum: nat, ghost c: seq<Block>) returns (resp: Reply<seq<byte>>)
    requires bc.Wired() && c == TheChain(bc)
    modifies bc`lastNode
    ensures bc.Wired() && AnswersRecord(c, bc.config.confirmsPerFileAppend, fname, recNum, resp)
  {
    resp := ReadRecord(bc, true, {fname}, fname, recNum);
  }

  // ---------- what the answers have to do with each other ----------

  lemma {:induction false} CountIsLength(c: seq<Block>, n: nat, fname: string, numRecs: int, counted: bool,
                                         file: FileOps, found: bool)
    requires ShowsCount(c, n, fname, numRecs, counted) && ShowsFile(c, n, fname, file, found)
    ensures counted == found && numRecs == if n < |c| then |file.operations| else -1
  {
  }

  lemma {:induction false} ConfirmedIsInFile(cfg: Settings, c: seq<Block>, o: Operation, file: FileOps, ok: bool)
    requires IdIdentifies(OpsOn(c), o) && IsConfirmed(cfg, c, o) && o.op.Append?
    requires ShowsFile(c, cfg.confirmsPerFileAppend, o.filename, file, ok)
    ensures ok && o in file.operations
  {
    ConfirmedIsVisible(cfg, c, o);
  }

  lemma {:induction false} ConfirmedIsListed(cfg: Settings, c: seq<Block>, o: Operation, list: seq<string>)
    requires IdIdentifies(OpsOn(c), o) && IsConfirmed(cfg, c, o)
    requires o.op.Append? ==> cfg.confirmsPerFileCreate <= cfg.confirmsPerFileAppend
    requires ShowsNames(c, cfg.confirmsPerFileCreate, list)
    ensures o.filename in list
  {
    ConfirmedIsVisible(cfg, c, o);
  }

  lemma {:induction false} IndexGetsItBack(cfg: Settings, c: seq<Block>, o: Operation, index: Reply<nat>,
                                           record: Reply<seq<byte>>)
    requires IdIdentifies(OpsOn(c), o) && IsConfirmed(cfg, c, o) && o.op.Append?
    requires AnswersIndex(c, cfg.confirmsPerFileAppend, o, index)
    requires index.Ok? ==> AnswersRecord(c, cfg.confirmsPerFileAppend, o.filename, index.value, record)
    ensures index.Ok? && record == Ok(ToRecord(o.data))
  {
    ConfirmedIsVisible(cfg, c, o);
    RecordIsThere(cfg, c, o, index.value);
  }

  // ---------- reads in a row ----------

  /** GetLastHash is the hash of the first of GetLastBlocks. */
  method HashThenBlocks(bc: Blockchain) returns (h: Hash, blocks: seq<Block>)
    requires bc.Wired()
    modifies bc`lastNode
    ensures bc.Wired() && |blocks| > 0 && blocks[0].hash == h
  {
    h := bc.GetLastHash();
    blocks := bc.GetLastBlocks();
  }

  /** NumRecs is the number of records that GetFile returns, whatever the number of longest chains. */
  method CountThenRead(bc: Blockchain, fname: string) returns (numRecs: int, counted: bool, file: FileOps, found: bool)
    requires bc.Wired()
    modifies bc`lastNode
    ensures bc.Wired() && counted == found
    ensures if bc.config.confirmsPerFileAppend < |old(TheChain(bc))| then numRecs == |file.operations|
            else numRecs == -1
  {
    ghost var c := TheChain(bc);
    numRecs, counted := Count(bc, fname, c);
    file, found := Read(bc, fname, c);
    CountIsLength(c, bc.config.confirmsPerFileAppend, fname, numRecs, counted, file, found);
  }

  /** Confirmed means visible: an append that CheckOpConfirmed reports is in GetFile. */
  method CheckThenRead(bc: Blockchain, o: Operation) returns (confirmed: bool, file: FileOps, ok: bool)
    requires bc.Wired() && IdIdentifies(OpsOn(TheChain(bc)), o)
    modifies bc`lastNode
    ensures bc.Wired()
    ensures confirmed && o.op.Append? ==> ok && o in file.operations
  {
    ghost var c := TheChain(bc);
    confirmed := Check(bc, o, c);
    file, ok := Read(bc, o.filename, c);
    if confirmed && o.op.Append? {
      ConfirmedIsInFile(bc.config, c, o, file, ok);
    }
  }

  /** The file of a confirmed operation that is no append is in ListFiles; so is that of an append if the create
      threshold is not the higher one. */
  method CheckThenList(bc: Blockchain, o: Operation) returns (confirmed: bool, list: seq<string>)
    requires bc.Wired() && IdIdentifies(OpsOn(TheChain(bc)), o)
    modifies bc`lastNode
    ensures bc.Wired()
    ensures confirmed && (o.op.Append? ==> bc.config.confirmsPerFileCreate <= bc.config.confirmsPerFileAppend) ==>
              o.filename in list
  {
    ghost var c := TheChain(bc);
    confirmed := Check(bc, o, c);
    list := List(bc, c);
    if confirmed && (o.op.Append? ==> bc.config.confirmsPerFileCreate <= bc.config.confirmsPerFileAppend) {
      ConfirmedIsListed(bc.config, c, o, list);
    }
  }

  /** The index that AppendRecord finds for a confirmed append gets its data back from ReadRecord. */
  method CheckThenFetch(bc: Blockchain, o: Operation)
    returns (confirmed: bool, index: Reply<nat>, record: Reply<seq<byte>>)
    requires bc.Wired() && IdIdentifies(OpsOn(TheChain(bc)), o)
    modifies bc`lastNode
    ensures bc.Wired()
    ensures confirmed && o.op.Append? ==> index.Ok? && record == Ok(ToRecord(o.data))
  {
    ghost var c := TheChain(bc);
    confirmed := Check(bc, o, c);
    index, record := IndexThenFetch(bc, o, c);
    if confirmed && o.op.Append? {
      IndexGetsItBack(bc.config, c, o, index, record);
    }
  }

  method FetchAt(bc: Blockchain, o: Operation, index: Reply<nat>, ghost c: seq<Block>)
    returns (record: Reply<seq<byte>>)
    requires bc.Wired() && c == TheChain(bc)
    modifies bc`lastNode
    ensures bc.Wired()
    ensures index.Ok? ==> AnswersRecord(c, bc.config.confirmsPerFileAppend, o.filename, index.value, record)
  {
    record := NotYet;
    if index.Ok? {
      record := Fetch(bc, o.filename, index.value, c);
    }
  }

  method IndexThenFetch(bc: Blockchain, o: Operation, ghost c: seq<Block>)
    returns (index: Reply<nat>, record: Reply<seq<byte>>)
    requires bc.Wired() && c == TheChain(bc)
    modifies bc`lastNode
    ensures bc.Wired() && AnswersIndex(c, bc.config.confirmsPerFileAppend, o, index)
    ensures index.Ok? ==> AnswersRecord(c, bc.config.confirmsPerFileAppend, o.filename, index.value, record)
  {
    index := Index(bc, o, c);
    record := FetchAt(bc, o, index, c);
  }

  // ---------- a read, a new block, a check ----------

  /** A block on top of a longest chain makes that chain the only longest one. */
  lemma {:induction false} OnlyTipAfter(t: Tree, tip: Hash, b: Block, k: Hash)
    requires Rooted(t) && IsTip(t, tip) && b.previousHash == tip && b.hash !in t.blocks && IsTip(Attach(t, b), k)
    ensures k == b.hash && Chain(Attach(t, b), k) == Chain(t, tip) + [b]
  {
    AttachChain(t, b);
    AttachFromGenesis(t, b, b.hash);
    if k != b.hash {
      assert FromGenesis(t, k);
      AttachGrows(t, b);
      ChainGrows(t, Attach(t, b), k);
    }
  }

  lemma {:induction false} OfferOnTip(rules: Rules, t: Tree, tip: Hash, b: Block, k: Hash)
    requires Sound(rules, t) && IsTip(t, tip) && b.previousHash == tip && tip in t.blocks
    requires Fits(RuleOf(rules), t, b) && IsTip(Offer(RuleOf(rules), t, b), k)
    ensures Chain(Offer(RuleOf(rules), t, b), k) == Chain(t, tip) + [b] && DistinctIds(OpsOn(Chain(t, tip) + [b]))
  {
    var u := Offer(RuleOf(rules), t, b);
    OnlyTipAfter(t, tip, b, k);
    OfferKeepsHonest(RuleOf(rules), t, b);
    assert FromGenesis(t, t.genesis);
    SoundChainHasDistinctIds(rules, u, Chain(u, k));
  }

  method Extend(bc: Blockchain, b: Block, ghost c: seq<Block>) returns (r: AddResult)
    requires bc.Wired() && Sound(bc.TheRules(), bc.View())
    requires c == TheChain(bc) && b.previousHash == c[|c| - 1].hash
    modifies bc`m, bc.m.Values
    ensures bc.Wired() && (r.Added? ==> TheChain(bc) == c + [b] && DistinctIds(OpsOn(c + [b])))
  {
    ghost var t, rules := bc.View(), bc.TheRules();
    bc.FirstTip();
    ghost var tip := bc.Tips()[0];
    r := AddTo(bc, b, t, rules);
    bc.FirstTip();
    if r.Added? {
      OfferOnTip(rules, t, tip, b, bc.Tips()[0]);
    }
  }

  method AddTo(bc: Blockchain, b: Block, ghost t: Tree, ghost rules: Rules) returns (r: AddResult)
    requires bc.Wired() && t == bc.View() && rules == bc.TheRules() && Rooted(t)
    modifies bc`m, bc.m.Values
    ensures bc.Wired() && bc.View() == Offer(RuleOf(rules), t, b) && (r.Added? <==> Fits(RuleOf(rules), t, b))
  {
    assert b.previousHash in t.blocks ==> FromGenesis(t, b.previousHash);
    r := bc.AddBlock(b);
  }

  lemma {:induction false} ShownIsConfirmedNext(cfg: Settings, c: seq<Block>, b: Block, fname: string, file: FileOps,
                                                ok: bool, o: Operation)
    requires ShowsFile(c, cfg.confirmsPerFileAppend, fname, file, ok) && o in file.operations
    requires DistinctIds(OpsOn(c + [b]))
    ensures IsConfirmed(cfg, c + [b], o)
  {
    RecordsHold(c[..|c| - cfg.confirmsPerFileAppend], fname, o);
    LongerConfirms(cfg, c, c + [b], o);
  }

  method ExtendThenCheck(bc: Blockchain, b: Block, o: Operation, ghost c: seq<Block>)
    returns (r: AddResult, confirmed: bool)
    requires bc.Wired() && Sound(bc.TheRules(), bc.View())
    requires c == TheChain(bc) && b.previousHash == c[|c| - 1].hash
    modifies bc`lastNode, bc`m, bc.m.Values
    ensures bc.Wired()
    ensures r.Added? ==> DistinctIds(OpsOn(c + [b])) && (confirmed <==> IsConfirmed(bc.config, c + [b], o))
  {
    r := Extend(bc, b, c);
    confirmed := Check(bc, o, TheChain(bc));
  }

  method CheckShown(bc: Blockchain, b: Block, o: Operation, ghost c: seq<Block>, ghost fname: string,
                    ghost file: FileOps, ghost ok: bool)
    returns (r: AddResult, confirmed: bool)
    requires bc.Wired() && Sound(bc.TheRules(), bc.View())
    requires c == TheChain(bc) && b.previousHash == c[|c| - 1].hash
    requires ShowsFile(c, bc.config.confirmsPerFileAppend, fname, file, ok)
    modifies bc`lastNode, bc`m, bc.m.Values
    ensures bc.Wired() && (r.Added? && o in file.operations ==> confirmed)
  {
    r, confirmed := ExtendThenCheck(bc, b, o, c);
    if r.Added? && o in file.operations {
      ShownIsConfirmedNext(bc.config, c, b, fname, file, ok, o);
    }
  }

  /** A record that GetFile shows is reported as confirmed once one more block has been added to the chain. */
  method ReadAddCheck(bc: Blockchain, fname: string, b: Block, o: Operation)
    returns (file: FileOps, ok: bool, r: AddResult, confirmed: bool)
    requires bc.Wired() && Sound(bc.TheRules(), bc.View())
    requires b.previousHash == TheChain(bc)[|TheChain(bc)| - 1].hash
    modifies bc`lastNode, bc`m, bc.m.Values
    ensures bc.Wired() && (r.Added? && o in file.operations ==> confirmed)
  {
    ghost var c := TheChain(bc);
    file, ok := Read(bc, fname, c);
    r, confirmed := CheckShown(bc, b, o, c, fname, file, ok);
  }
}
