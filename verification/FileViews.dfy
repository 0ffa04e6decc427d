/** What clients see of the files: functions of a chain, replayed from its root, and how they evolve. */
module FileViews {
  import opened Types
  import opened BlockTree
  import opened Accounting
  import opened Reversal

  datatype FileOps = FileOps(fname: string, operations: seq<Operation>, deleted: bool)

  /** What GetFile shows of a file on a confirmed chain. */
  function FileOn(chain: seq<Block>, fname: string): FileOps {
    FileOps(fname, Records(chain, fname), fname in DeletedIn(OpsOn(chain)))
  }

  // ---------- records ----------

  function AppendsTo(ops: seq<Operation>, fname: string): (r: seq<Operation>)
  {
    if ops == [] then []
    else
      var o := ops[|ops| - 1];
      AppendsTo(ops[..|ops| - 1], fname) + if o.filename == fname && o.op.Append? then [o] else []
  }

  /** The records of a file: blocks oldest first, but within one block the last operation first. */
  function Records(chain: seq<Block>, fname: string): (r: seq<Operation>)
  {
    if chain == [] then []
    else Records(chain[..|chain| - 1], fname) + Reverse(AppendsTo(chain[|chain| - 1].operations, fname))
  }

  function NamesIn(ops: seq<Operation>): set<string> {
    set o | o in ops :: o.filename
  }

  function DeletedIn(ops: seq<Operation>): set<string> {
    set o | o in ops && o.op.Delete? :: o.filename
  }

  lemma {:induction false} ViewsSnoc(ops: seq<Operation>, k: nat, fname: string)
    requires k < |ops|
    ensures AppendsTo(ops[..k + 1], fname)
            == AppendsTo(ops[..k], fname) + if ops[k].filename == fname && ops[k].op.Append? then [ops[k]] else []
    ensures NamesIn(ops[..k + 1]) == NamesIn(ops[..k]) + {ops[k].filename}
    ensures DeletedIn(ops[..k + 1]) == DeletedIn(ops[..k]) + if ops[k].op.Delete? then {ops[k].filename} else {}
  {
    assert ops[..k + 1] == ops[..k] + [ops[k]] && ops[..k + 1][..k] == ops[..k];
  }

  lemma ViewsConcat(a: seq<Operation>, b: seq<Operation>)
    ensures NamesIn(a + b) == NamesIn(a) + NamesIn(b)
    ensures DeletedIn(a + b) == DeletedIn(a) + DeletedIn(b)
    ensures IdsIn(a + b) == IdsIn(a) + IdsIn(b)
  {
  }

  /** The part of the longest chain that has at least `n` blocks after each of its blocks. */
  function Confirmed(chain: seq<Block>, n: nat): seq<Block>
    requires n <= |chain|
  {
    chain[..|chain| - n]
  }

  /** What GetFile answers when it goes `n` blocks back from the end of the chain. */
  predicate ShowsFile(c: seq<Block>, n: nat, fname: string, file: FileOps, ok: bool) {
    if n < |c| then file == FileOn(c[..|c| - n], fname) && ok == (fname in NamesIn(OpsOn(c[..|c| - n])))
    else file == FileOps("", [], false) && !ok
  }

  /** What NumRecs answers. */
  predicate ShowsCount(c: seq<Block>, n: nat, fname: string, numRecs: int, ok: bool) {
    if n < |c| then numRecs == |Records(c[..|c| - n], fname)| && ok == (fname in NamesIn(OpsOn(c[..|c| - n])))
    else numRecs == -1 && !ok
  }

  /** What ListFiles answers. */
  ghost predicate ShowsNames(c: seq<Block>, n: nat, list: seq<string>) {
    if n < |c| then forall f :: f in list <==> f in NamesIn(OpsOn(c[..|c| - n])) else list == []
  }

  // ---------- confirmation ----------

  function Threshold(cfg: Settings, o: Operation): nat {
    if o.op.Append? then cfg.confirmsPerFileAppend else cfg.confirmsPerFileCreate
  }

  predicate InBlock(chain: seq<Block>, i: int, id: string) {
    0 <= i < |chain| && id in IdsIn(chain[i].operations)
  }

  /** The operation is on the chain, and more than the threshold of blocks follow each block that has it. */
  ghost predicate IsConfirmed(cfg: Settings, chain: seq<Block>, o: Operation) {
    && (exists i :: InBlock(chain, i, o.operationID))
    && (forall i :: InBlock(chain, i, o.operationID) ==> |chain| - 1 - i > Threshold(cfg, o))
  }

  // ---------- records along chains ----------

  lemma {:induction false} AppendsToHolds(ops: seq<Operation>, fname: string, o: Operation)
    ensures o in AppendsTo(ops, fname) <==> o in ops && o.filename == fname && o.op.Append?
  {
    if ops != [] {
      AppendsToHolds(ops[..|ops| - 1], fname, o);
      assert ops == ops[..|ops| - 1] + [ops[|ops| - 1]];
    }
  }

  lemma InReverse<T>(s: seq<T>, x: T)
    ensures x in Reverse(s) <==> x in s
  {
    if x in s {
      var i :| 0 <= i < |s| && s[i] == x;
      assert Reverse(s)[|s| - 1 - i] == x;
    }
  }

  /** A record of the file is exactly an append to it somewhere on the chain. */
  lemma {:induction false} RecordsHold(chain: seq<Block>, fname: string, o: Operation)
    ensures o in Records(chain, fname) <==> o in OpsOn(chain) && o.filename == fname && o.op.Append?
  {
    if chain != [] {
      var ops := chain[|chain| - 1].operations;
      RecordsHold(chain[..|chain| - 1], fname, o);
      InReverse(AppendsTo(ops, fname), o);
      AppendsToHolds(ops, fname, o);
    }
  }

  /** Longer chains only add records at the end. */
  lemma {:induction false} RecordsGrow(c: seq<Block>, d: seq<Block>, fname: string)
    requires c <= d
    ensures Records(c, fname) <= Records(d, fname)
    decreases |d|
  {
    if |c| < |d| {
      RecordsGrow(c, d[..|d| - 1], fname);
    } else {
      assert c == d;
    }
  }

  // ---------- the longest chain moves on ----------

  /** The hash of the newest confirmed block. */
  ghost function ConfirmedHash(t: Tree, tip: Hash, n: nat): Hash
    requires Grounded(t, tip) && n < |Chain(t, tip)|
  {
    Chain(t, tip)[|Chain(t, tip)| - 1 - n].hash
  }

  lemma ConfirmedIsChain(t: Tree, tip: Hash, n: nat)
    requires Grounded(t, tip) && n < |Chain(t, tip)|
    ensures Grounded(t, ConfirmedHash(t, tip, n))
    ensures Chain(t, ConfirmedHash(t, tip, n)) == Confirmed(Chain(t, tip), n)
  {
    ChainPrefix(t, Chain(t, tip), |Chain(t, tip)| - n);
  }

  /** If the new longest chain still runs through the old confirmed block, the old confirmed chain is
      an initial part of the new one. */
  lemma ConfirmedGrows(t: Tree, u: Tree, tip: Hash, tip': Hash, n: nat)
    requires Grows(t, u) && IsTip(t, tip) && IsTip(u, tip') && n < |Chain(t, tip)|
    requires DescendsFrom(u, tip', ConfirmedHash(t, tip, n))
    ensures n < |Chain(u, tip')|
    ensures Confirmed(Chain(t, tip), n) <= Confirmed(Chain(u, tip'), n)
  {
    TipsRise(t, u, tip, tip');
    ConfirmedIsChain(t, tip, n);
    ChainGrows(t, u, ConfirmedHash(t, tip, n));
  }

  /** Append-only reads: every record keeps its index. */
  lemma ReadsAreAppendOnly(t: Tree, u: Tree, tip: Hash, tip': Hash, n: nat, fname: string)
    requires Grows(t, u) && IsTip(t, tip) && IsTip(u, tip') && n < |Chain(t, tip)|
    requires DescendsFrom(u, tip', ConfirmedHash(t, tip, n))
    ensures n < |Chain(u, tip')|
    ensures Records(Confirmed(Chain(t, tip), n), fname) <= Records(Confirmed(Chain(u, tip'), n), fname)
  {
    ConfirmedGrows(t, u, tip, tip', n);
    RecordsGrow(Confirmed(Chain(t, tip), n), Confirmed(Chain(u, tip'), n), fname);
  }

  // ---------- records have one index ----------

  lemma {:induction false} DistinctParts(a: seq<Operation>, b: seq<Operation>)
    requires DistinctIds(a + b)
    ensures DistinctIds(a) && DistinctIds(b) && IdsIn(a) !! IdsIn(b)
  {
    var s := a + b;
    assert forall i :: 0 <= i < |a| ==> s[i] == a[i];
    assert forall i :: 0 <= i < |b| ==> s[|a| + i] == b[i];
    forall x | x in a
      ensures x.operationID !in IdsIn(b)
    {
      var i :| 0 <= i < |a| && a[i] == x;
      forall y | y in b ensures y.operationID != x.operationID {
        var j :| 0 <= j < |b| && b[j] == y;
        assert s[i].operationID != s[|a| + j].operationID;
      }
    }
  }

  lemma {:induction false} DistinctAppends(ops: seq<Operation>, fname: string)
    requires DistinctIds(ops)
    ensures DistinctIds(AppendsTo(ops, fname)) && IdsIn(AppendsTo(ops, fname)) <= IdsIn(ops)
  {
    if ops != [] {
      var front, o := ops[..|ops| - 1], ops[|ops| - 1];
      assert ops == front + [o];
      DistinctSnoc(front, o);
      DistinctAppends(front, fname);
      DistinctSnoc(AppendsTo(front, fname), o);
    }
  }

  lemma DistinctReverse(s: seq<Operation>)
    requires DistinctIds(s)
    ensures DistinctIds(Reverse(s)) && IdsIn(Reverse(s)) == IdsIn(s)
  {
    forall o ensures o in Reverse(s) <==> o in s { InReverse(s, o); }
  }

  /** Where operation IDs do not repeat, a file has no two records with the same ID. */
  lemma {:induction false} RecordsAreDistinct(chain: seq<Block>, fname: string)
    requires DistinctIds(OpsOn(chain))
    ensures DistinctIds(Records(chain, fname)) && IdsIn(Records(chain, fname)) <= IdsIn(OpsOn(chain))
  {
    if chain != [] {
      var front, ops := chain[..|chain| - 1], chain[|chain| - 1].operations;
      DistinctParts(OpsOn(front), ops);
      RecordsAreDistinct(front, fname);
      DistinctAppends(ops, fname);
      DistinctReverse(AppendsTo(ops, fname));
      DistinctConcat(Records(front, fname), Reverse(AppendsTo(ops, fname)));
    }
  }

  // ---------- confirmed means visible ----------

  lemma {:induction false} OpsOnFrom(c: seq<Block>, o: Operation) returns (i: nat)
    requires o in OpsOn(c)
    ensures i < |c| && o in c[i].operations
  {
    var front := c[..|c| - 1];
    if o in OpsOn(front) {
      i := OpsOnFrom(front, o);
    } else {
      i := |c| - 1;
    }
  }

  /** An ID is among the operations of a chain exactly when one of its blocks has it. */
  lemma OnChain(c: seq<Block>, id: string)
    ensures id in IdsIn(OpsOn(c)) <==> exists i :: InBlock(c, i, id)
  {
    if i :| InBlock(c, i, id) {
      var o :| o in c[i].operations && o.operationID == id;
      OpsOnHas(c, i, o);
    }
    if id in IdsIn(OpsOn(c)) {
      var o :| o in OpsOn(c) && o.operationID == id;
      var i := OpsOnFrom(c, o);
      assert InBlock(c, i, id);
    }
  }

  lemma {:induction false} OneBlockHasIt(c: seq<Block>, i: nat, j: nat, id: string)
    requires DistinctIds(OpsOn(c)) && i < j < |c| && InBlock(c, i, id)
    ensures !InBlock(c, j, id)
  {
    assert c == c[..j] + c[j..];
    OpsOnConcat(c[..j], c[j..]);
    DistinctParts(OpsOn(c[..j]), OpsOn(c[j..]));
    var x :| x in c[i].operations && x.operationID == id;
    OpsOnHas(c[..j], i, x);
    assert id in IdsIn(OpsOn(c[..j]));
    forall y | y in c[j].operations
      ensures y.operationID != id
    {
      OpsOnHas(c[j..], 0, y);
      assert y.operationID in IdsIn(OpsOn(c[j..]));
    }
  }

  /** The ID is on the chain, but not in its newest `n` blocks. */
  ghost predicate Settled(chain: seq<Block>, id: string, n: nat) {
    && n <= |chain|
    && id in IdsIn(OpsOn(chain[..|chain| - n])) && id !in IdsIn(OpsOn(chain[|chain| - n..]))
  }

  lemma {:induction false} SettledByBlocks(chain: seq<Block>, id: string, n: nat)
    ensures Settled(chain, id, n) <==> && (exists i :: InBlock(chain, i, id))
                                       && (forall i :: InBlock(chain, i, id) ==> |chain| - 1 - i >= n)
  {
    if n <= |chain| {
      var k := |chain| - n;
      OnChain(chain[..k], id);
      OnChain(chain[k..], id);
      forall i
        ensures InBlock(chain, i, id) <==> InBlock(chain[..k], i, id) || InBlock(chain[k..], i - k, id)
      {
      }
      if i :| InBlock(chain[k..], i, id) {
        assert InBlock(chain, i + k, id);
      }
    }
  }

  /** Confirmation asks for one block more than the views, on any chain. */
  lemma {:induction false} ConfirmedIsSettled(cfg: Settings, chain: seq<Block>, o: Operation)
    ensures o.op.Append? ==>
              (IsConfirmed(cfg, chain, o) <==> Settled(chain, o.operationID, cfg.confirmsPerFileAppend + 1))
    ensures !o.op.Append? ==>
              (IsConfirmed(cfg, chain, o) <==> Settled(chain, o.operationID, cfg.confirmsPerFileCreate + 1))
  {
    SettledByBlocks(chain, o.operationID, Threshold(cfg, o) + 1);
  }

  lemma {:induction false} SettledOnce(chain: seq<Block>, id: string, n: nat)
    requires DistinctIds(OpsOn(chain)) && n <= |chain| && id in IdsIn(OpsOn(chain[..|chain| - n]))
    ensures Settled(chain, id, n)
  {
    var k := |chain| - n;
    assert chain == chain[..k] + chain[k..];
    OpsOnConcat(chain[..k], chain[k..]);
    DistinctParts(OpsOn(chain[..k]), OpsOn(chain[k..]));
  }

  /** Where IDs do not repeat: an operation is confirmed exactly when it is still on the chain after dropping its
      newest blocks, one more than the number that the settings ask for. */
  lemma {:induction false} ConfirmedExactly(cfg: Settings, chain: seq<Block>, o: Operation)
    requires DistinctIds(OpsOn(chain))
    ensures var n := if o.op.Append? then cfg.confirmsPerFileAppend + 1 else cfg.confirmsPerFileCreate + 1;
            IsConfirmed(cfg, chain, o) <==> n <= |chain| && o.operationID in IdsIn(OpsOn(chain[..|chain| - n]))
  {
    var n := if o.op.Append? then cfg.confirmsPerFileAppend + 1 else cfg.confirmsPerFileCreate + 1;
    ConfirmedIsSettled(cfg, chain, o);
    if n <= |chain| && o.operationID in IdsIn(OpsOn(chain[..|chain| - n])) {
      SettledOnce(chain, o.operationID, n);
    }
  }

  /** The views see the operation: it is followed by at least as many blocks as the settings ask for. */
  ghost predicate IsSeen(cfg: Settings, chain: seq<Block>, o: Operation) {
    var n := if o.op.Append? then cfg.confirmsPerFileAppend else cfg.confirmsPerFileCreate;
    n < |chain| && o in OpsOn(chain[..|chain| - n])
  }

  /** What the views see now is confirmed once the longest chain, still running through the newest block that they see,
      has got longer. */
  lemma {:induction false} SeenIsConfirmedNext(cfg: Settings, t: Tree, u: Tree, tip: Hash, tip': Hash, o: Operation)
    requires Grows(t, u) && IsTip(t, tip) && IsTip(u, tip') && IsSeen(cfg, Chain(t, tip), o)
    requires var n := if o.op.Append? then cfg.confirmsPerFileAppend else cfg.confirmsPerFileCreate;
             DescendsFrom(u, tip', ConfirmedHash(t, tip, n))
    requires |Chain(t, tip)| < |Chain(u, tip')| && DistinctIds(OpsOn(Chain(u, tip')))
    ensures IsConfirmed(cfg, Chain(u, tip'), o)
  {
    var n := if o.op.Append? then cfg.confirmsPerFileAppend else cfg.confirmsPerFileCreate;
    ConfirmedIsChain(t, tip, n);
    ChainGrows(t, u, ConfirmedHash(t, tip, n));
    LongerConfirms(cfg, Chain(t, tip), Chain(u, tip'), o);
  }

  lemma {:induction false} LongerConfirms(cfg: Settings, c: seq<Block>, d: seq<Block>, o: Operation)
    requires IsSeen(cfg, c, o) && |c| < |d| && DistinctIds(OpsOn(d))
    requires var n := if o.op.Append? then cfg.confirmsPerFileAppend else cfg.confirmsPerFileCreate;
             c[..|c| - n] <= d
    ensures IsConfirmed(cfg, d, o)
  {
    var n := if o.op.Append? then cfg.confirmsPerFileAppend else cfg.confirmsPerFileCreate;
    ConfirmedExactly(cfg, d, o);
    OpsOnPrefix(c[..|c| - n], d[..|d| - (n + 1)]);
    assert o in OpsOn(d[..|d| - (n + 1)]);
  }

  /** An operation ID names one operation. */
  ghost predicate IdIdentifies(ops: seq<Operation>, o: Operation) {
    forall x :: x in ops && x.operationID == o.operationID ==> x == o
  }

  lemma {:induction false} OpsOnPrefix(c: seq<Block>, d: seq<Block>)
    requires c <= d
    ensures OpsOn(c) <= OpsOn(d)
  {
    assert d == c + d[|c|..];
    OpsOnConcat(c, d[|c|..]);
  }

  /** What CheckOpConfirmed reports as confirmed is there to be seen: an append is a record of its file, which GetFile
      sees; the file of any other operation is listed, and that of an append too if the create threshold is not the
      higher one. */
  lemma {:induction false} ConfirmedIsVisible(cfg: Settings, chain: seq<Block>, o: Operation)
    requires IdIdentifies(OpsOn(chain), o) && IsConfirmed(cfg, chain, o)
    ensures Threshold(cfg, o) < |chain|
    ensures o.filename in NamesIn(OpsOn(Confirmed(chain, Threshold(cfg, o))))
    ensures o.op.Append? ==> o in Records(Confirmed(chain, Threshold(cfg, o)), o.filename)
    ensures (o.op.Append? ==> cfg.confirmsPerFileCreate <= cfg.confirmsPerFileAppend) ==>
              && cfg.confirmsPerFileCreate < |chain|
              && o.filename in NamesIn(OpsOn(Confirmed(chain, cfg.confirmsPerFileCreate)))
  {
    var n := Threshold(cfg, o);
    var i :| InBlock(chain, i, o.operationID);
    var x :| x in chain[i].operations && x.operationID == o.operationID;
    OpsOnHas(chain, i, x);
    OpsOnHas(Confirmed(chain, n), i, x);
    RecordsHold(Confirmed(chain, n), o.filename, o);
    if o.op.Append? && cfg.confirmsPerFileCreate <= cfg.confirmsPerFileAppend {
      SeenIsListed(cfg, chain, o.filename);
    }
  }

  /** A confirmed operation stays confirmed while the longest chain keeps running through its block. */
  lemma {:induction false} StaysConfirmed(cfg: Settings, t: Tree, u: Tree, tip: Hash, tip': Hash, h: Hash, o: Operation)
    requires Grows(t, u) && IsTip(t, tip) && IsTip(u, tip')
    requires DescendsFrom(t, tip, h) && DescendsFrom(u, tip', h)
    requires h in t.blocks && o.operationID in IdsIn(t.blocks[h].operations)
    requires DistinctIds(OpsOn(Chain(u, tip'))) && IsConfirmed(cfg, Chain(t, tip), o)
    ensures IsConfirmed(cfg, Chain(u, tip'), o)
  {
    var c, c', p, id := Chain(t, tip), Chain(u, tip'), Chain(t, h), o.operationID;
    TipsRise(t, u, tip, tip');
    ChainGrows(t, u, h);
    var i := |p| - 1;
    assert c[i] == p[i] == c'[i] == t.blocks[h];
    assert InBlock(c, i, id) && InBlock(c', i, id);
    forall j | InBlock(c', j, id)
      ensures |c'| - 1 - j > Threshold(cfg, o)
    {
      if i < j { OneBlockHasIt(c', i, j, id); }
    }
  }

  /** With the append threshold at least the create threshold, every file that has a confirmed
      operation for GetFile is also listed. */
  lemma SeenIsListed(cfg: Settings, chain: seq<Block>, fname: string)
    requires cfg.confirmsPerFileCreate <= cfg.confirmsPerFileAppend < |chain|
    requires fname in NamesIn(OpsOn(Confirmed(chain, cfg.confirmsPerFileAppend)))
    ensures fname in NamesIn(OpsOn(Confirmed(chain, cfg.confirmsPerFileCreate)))
  {
    OpsOnPrefix(Confirmed(chain, cfg.confirmsPerFileAppend), Confirmed(chain, cfg.confirmsPerFileCreate));
  }

  // ---------- looking for an operation, newest block first ----------

  /** The operations in the order in which a walk from the newest block meets them. */
  function Scan(chain: seq<Block>): seq<Operation> {
    if chain == [] then [] else chain[|chain| - 1].operations + Scan(chain[..|chain| - 1])
  }

  /** Where the ID occurs first, or the length of the list. */
  function FirstMatch(s: seq<Operation>, id: string): (k: nat)
    ensures k <= |s|
    ensures k < |s| ==> s[k].operationID == id
    ensures forall j :: 0 <= j < k ==> s[j].operationID != id
  {
    if s == [] || s[0].operationID == id then 0 else 1 + FirstMatch(s[1..], id)
  }

  /** Another miner's operation on the file that `o` wants to create. */
  predicate Clash(o: Operation, x: Operation) {
    o.op.Create? && x.filename == o.filename && x.minerID != o.minerID
  }

  /** A clash is met no later than the operation itself. */
  ghost predicate ClashBeforeMatch(s: seq<Operation>, o: Operation) {
    exists j :: 0 <= j < |s| && j <= FirstMatch(s, o.operationID) && Clash(o, s[j])
  }

  lemma NoMatch(s: seq<Operation>, id: string)
    ensures FirstMatch(s, id) == |s| <==> id !in IdsIn(s)
  {
    if FirstMatch(s, id) < |s| {
      assert s[FirstMatch(s, id)] in s;
    }
  }

  lemma {:induction false} FirstMatchConcat(a: seq<Operation>, b: seq<Operation>, id: string)
    ensures FirstMatch(a + b, id) == if FirstMatch(a, id) < |a| then FirstMatch(a, id) else |a| + FirstMatch(b, id)
  {
    if a == [] {
      assert a + b == b;
    } else {
      assert (a + b)[1..] == a[1..] + b;
      FirstMatchConcat(a[1..], b, id);
    }
  }

  lemma ClashConcat(a: seq<Operation>, b: seq<Operation>, o: Operation)
    requires o.operationID !in IdsIn(a)
    ensures ClashBeforeMatch(a + b, o) <==> ClashBeforeMatch(a, o) || ClashBeforeMatch(b, o)
  {
    var s := a + b;
    NoMatch(a, o.operationID);
    FirstMatchConcat(a, b, o.operationID);
    if j :| 0 <= j < |s| && j <= FirstMatch(s, o.operationID) && Clash(o, s[j]) {
      if j < |a| { assert Clash(o, a[j]); } else { assert Clash(o, b[j - |a|]); }
    }
    if j :| 0 <= j < |a| && j <= FirstMatch(a, o.operationID) && Clash(o, a[j]) {
      assert Clash(o, s[j]);
    }
    if j :| 0 <= j < |b| && j <= FirstMatch(b, o.operationID) && Clash(o, b[j]) {
      assert Clash(o, s[|a| + j]);
    }
  }

  lemma ClashStopsAtMatch(a: seq<Operation>, b: seq<Operation>, o: Operation)
    requires o.operationID in IdsIn(a)
    ensures ClashBeforeMatch(a + b, o) <==> ClashBeforeMatch(a, o)
  {
    var s := a + b;
    NoMatch(a, o.operationID);
    FirstMatchConcat(a, b, o.operationID);
    if j :| 0 <= j < |s| && j <= FirstMatch(s, o.operationID) && Clash(o, s[j]) {
      assert Clash(o, a[j]);
    }
    if j :| 0 <= j < |a| && j <= FirstMatch(a, o.operationID) && Clash(o, a[j]) {
      assert Clash(o, s[j]);
    }
  }
}
