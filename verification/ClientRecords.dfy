/** p2p/rpc.go: the record number that AppendRecord answers with, and the record that ReadRecord picks. */
module ClientRecords {
  import opened Types
  import opened BlockTree
  import opened Growth
  import opened Accounting
  import opened Ledger
  import opened FileViews
  import opened Blockchains

  const RECORD_SIZE: nat := 512

  /** A record holds a fixed number of bytes: longer data is cut, shorter data is filled up with zeroes. */
  function ToRecord(data: seq<byte>): (r: seq<byte>)
    ensures |r| == RECORD_SIZE
    ensures forall i :: 0 <= i < RECORD_SIZE ==> r[i] == if i < |data| then data[i] else 0
  {
    seq(RECORD_SIZE, i requires 0 <= i < RECORD_SIZE => if i < |data| then data[i] else 0)
  }

  datatype Reply<T> = Ok(value: T) | Disconnected | FileDoesNotExist | NotYet

  /** The last index with the ID, or 0 if there is none. */
  ghost predicate IsIndex(ops: seq<Operation>, id: string, i: nat) {
    if id in IdsIn(ops) then
      i < |ops| && ops[i].operationID == id && forall j :: i < j < |ops| ==> ops[j].operationID != id
    else i == 0
  }

  method FindIndex(ops: seq<Operation>, id: string) returns (resp: nat)
    ensures IsIndex(ops, id, resp)
    ensures if exists o :: o in ops && o.operationID == id
            then && resp < |ops| && ops[resp].operationID == id
                 && forall j :: resp < j < |ops| ==> ops[j].operationID != id
            else resp == 0
  {
    resp := 0;
    var i := |ops| - 1;
    while i >= 0
      invariant -1 <= i < |ops|
      invariant forall j :: i < j < |ops| ==> ops[j].operationID != id
    {
      if ops[i].operationID == id {
        assert ops[i] in ops;
        return i;
      }
      i := i - 1;
    }
  }

  /** The index of the append in its file, if the file is there `n` blocks back from the end of the chain. */
  ghost predicate AnswersIndex(c: seq<Block>, n: nat, op: Operation, resp: Reply<nat>) {
    if n < |c| && op.filename in NamesIn(OpsOn(c[..|c| - n]))
    then resp.Ok? && IsIndex(Records(c[..|c| - n], op.filename), op.operationID, resp.value)
    else resp == FileDoesNotExist
  }

  /** The record at the number, if the file is there and has it. */
  ghost predicate AnswersRecord(c: seq<Block>, n: nat, fname: string, recNum: nat, resp: Reply<seq<byte>>) {
    resp == if !(n < |c|) || fname !in NamesIn(OpsOn(c[..|c| - n])) then FileDoesNotExist
            else if recNum < |Records(c[..|c| - n], fname)| then Ok(ToRecord(Records(c[..|c| - n], fname)[recNum].data))
            else NotYet
  }

  /** AppendRecord, once the operation has been reported as confirmed. */
  method AppendedIndex(bc: Blockchain, op: Operation) returns (resp: Reply<nat>)
    requires bc.Wired()
    modifies bc`lastNode
    ensures bc.Wired() && bc.AtFirstTip()
    ensures AnswersIndex(Chain(old(bc.View()), bc.lastNode.block.hash), bc.config.confirmsPerFileAppend, op, resp)
  {
    var file, ok := bc.GetFile(op.filename);
    resp := IndexInFile(file, ok, op, Chain(old(bc.View()), bc.lastNode.block.hash), bc.config.confirmsPerFileAppend);
  }

  method IndexInFile(file: FileOps, ok: bool, op: Operation, ghost c: seq<Block>, ghost n: nat)
    returns (resp: Reply<nat>)
    requires ShowsFile(c, n, op.filename, file, ok)
    ensures AnswersIndex(c, n, op, resp)
  {
    if !ok {
      return FileDoesNotExist;
    }
    var i := FindIndex(file.operations, op.operationID);
    resp := Ok(i);
  }

  /** One round of ReadRecord; `NotYet` is where it sleeps and asks again. */
  method ReadRecord(bc: Blockchain, isConnected: bool, confirmedFiles: set<string>, fname: string, recNum: nat)
    returns (resp: Reply<seq<byte>>)
    requires bc.Wired()
    modifies bc`lastNode
    ensures bc.Wired()
    ensures !isConnected ==> resp == Disconnected
    ensures isConnected && fname !in confirmedFiles ==> resp == FileDoesNotExist
    ensures isConnected && fname in confirmedFiles ==>
              && bc.AtFirstTip()
              && AnswersRecord(Chain(old(bc.View()), bc.lastNode.block.hash), bc.config.confirmsPerFileAppend, fname,
                               recNum, resp)
  {
    if !isConnected {
      return Disconnected;
    }
    if fname !in confirmedFiles {
      return FileDoesNotExist;
    }
    var file, ok := bc.GetFile(fname);
    resp := RecordInFile(file, ok, fname, recNum, Chain(old(bc.View()), bc.lastNode.block.hash),
                         bc.config.confirmsPerFileAppend);
  }

  method RecordInFile(file: FileOps, ok: bool, fname: string, recNum: nat, ghost c: seq<Block>, ghost n: nat)
    returns (resp: Reply<seq<byte>>)
    requires ShowsFile(c, n, fname, file, ok)
    ensures AnswersRecord(c, n, fname, recNum, resp)
  {
    if !ok {
      return FileDoesNotExist;
    }
    if recNum < |file.operations| {
      return Ok(ToRecord(file.operations[recNum].data));
    }
    return NotYet;
  }

  lemma {:induction false} RunPrefix(rule: Rule, t: Tree, bs: seq<Block>, more: seq<Block>, n: nat)
    requires Rooted(t) && n <= |bs|
    ensures OfferFirst(rule, t, bs + more, n) == OfferFirst(rule, t, bs, n)
  {
    if n > 0 {
      RunPrefix(rule, t, bs, more, n - 1);
    }
  }

  lemma {:induction false} LaterLedgerGrows(rules: Rules, now: int, bs: seq<Block>, more: seq<Block>)
    ensures Grows(After(rules, now, bs), After(rules, now, bs + more))
  {
    var rule, t := RuleOf(rules), Single(GenesisBlock(rules.cfg, now));
    RunPrefix(rule, t, bs, more, |bs|);
    RunGrows(rule, t, bs + more, |bs|, |bs + more|);
  }

  /** The index of a confirmed append names it, now and in every later ledger whose longest chain still runs through
      the newest block that is confirmed now; and no other index ever does. */
  lemma {:induction false} IndexKeepsNamingTheRecord(rules: Rules, now: int, bs: seq<Block>, more: seq<Block>,
                                                     tip: Hash, tip': Hash, o: Operation, i: nat)
    requires IsTip(After(rules, now, bs), tip) && IsTip(After(rules, now, bs + more), tip')
    requires o.op.Append? && IdIdentifies(OpsOn(Chain(After(rules, now, bs), tip)), o)
    requires IsConfirmed(rules.cfg, Chain(After(rules, now, bs), tip), o)
    requires var c, n := Chain(After(rules, now, bs), tip), rules.cfg.confirmsPerFileAppend;
             && n < |c| && IsIndex(Records(Confirmed(c, n), o.filename), o.operationID, i)
             && DescendsFrom(After(rules, now, bs + more), tip', ConfirmedHash(After(rules, now, bs), tip, n))
    ensures rules.cfg.confirmsPerFileAppend < |Chain(After(rules, now, bs + more), tip')|
    ensures var c := Chain(After(rules, now, bs + more), tip');
            var recs := Records(Confirmed(c, rules.cfg.confirmsPerFileAppend), o.filename);
            && i < |recs| && recs[i] == o
            && (forall j :: 0 <= j < |recs| && recs[j].operationID == o.operationID ==> j == i)
  {
    var t, u, n := After(rules, now, bs), After(rules, now, bs + more), rules.cfg.confirmsPerFileAppend;
    LaterLedgerGrows(rules, now, bs, more);
    ReadsAreAppendOnly(t, u, tip, tip', n, o.filename);
    RecordIsThere(rules.cfg, Chain(t, tip), o, i);
    UniqueOperations(rules, now, bs + more, tip');
    OnlyIndex(Chain(u, tip'), n, o, i);
  }

  lemma {:induction false} RecordIsThere(cfg: Settings, chain: seq<Block>, o: Operation, i: nat)
    requires o.op.Append? && IdIdentifies(OpsOn(chain), o) && IsConfirmed(cfg, chain, o)
    requires cfg.confirmsPerFileAppend < |chain|
    requires IsIndex(Records(Confirmed(chain, cfg.confirmsPerFileAppend), o.filename), o.operationID, i)
    ensures i < |Records(Confirmed(chain, cfg.confirmsPerFileAppend), o.filename)|
    ensures Records(Confirmed(chain, cfg.confirmsPerFileAppend), o.filename)[i] == o
  {
    var recs := Records(Confirmed(chain, cfg.confirmsPerFileAppend), o.filename);
    ConfirmedIsVisible(cfg, chain, o);
    assert o.operationID in IdsIn(recs);
    RecordsHold(Confirmed(chain, cfg.confirmsPerFileAppend), o.filename, recs[i]);
    OpsOnPrefix(Confirmed(chain, cfg.confirmsPerFileAppend), chain);
  }

  lemma {:induction false} OnlyIndex(chain: seq<Block>, n: nat, o: Operation, i: nat)
    requires n <= |chain| && DistinctIds(OpsOn(chain))
    requires i < |Records(Confirmed(chain, n), o.filename)| && Records(Confirmed(chain, n), o.filename)[i] == o
    ensures var recs := Records(Confirmed(chain, n), o.filename);
            forall j :: 0 <= j < |recs| && recs[j].operationID == o.operationID ==> j == i
  {
    var c := Confirmed(chain, n);
    OpsOnPrefix(c, chain);
    assert OpsOn(chain) == OpsOn(c) + OpsOn(chain)[|OpsOn(c)|..];
    DistinctParts(OpsOn(c), OpsOn(chain)[|OpsOn(c)|..]);
    RecordsAreDistinct(c, o.filename);
  }
}
