/** The loops of ValidateOperations. */
module Validation {
  import opened Types
  import opened Accounting
  import opened Selection

  lemma TablesSnoc(ops: seq<Operation>, o: Operation)
    ensures ById(ops + [o]) == ById(ops)[o.operationID := o]
    ensures CreateByName(ops + [o]) == if o.op.Create? then CreateByName(ops)[o.filename := o] else CreateByName(ops)
  {
    assert (ops + [o])[..|ops|] == ops;
  }

  /** The three tables built from the operations under test. */
  method BuildTables(ops: seq<Operation>)
    returns (balances: map<string, int>, opIds: map<string, Operation>, files: map<string, Operation>)
    ensures balances.Keys == MinersOf(ops) && forall m :: m in balances ==> balances[m] == 0
    ensures opIds == ById(ops) && files == CreateByName(ops)
  {
    balances, opIds, files := map[], map[], map[];
    for k := 0 to |ops|
      invariant balances.Keys == MinersOf(ops[..k]) && forall m :: m in balances ==> balances[m] == 0
      invariant opIds == ById(ops[..k]) && files == CreateByName(ops[..k])
    {
      var o := ops[k];
      assert ops[..k + 1] == ops[..k] + [o];
      DistinctSnoc(ops[..k], o);
      TablesSnoc(ops[..k], o);
      if o.op.Create? {
        files := files[o.filename := o];
      }
      balances := balances[o.minerID := 0];
      opIds := opIds[o.operationID := o];
    }
    assert ops[..|ops|] == ops;
  }

  /** One block on the way back: credit its miner, charge its operations, strike out conflicts. */
  method ReplayBlock(cfg: Settings, b: Block, files: map<string, Operation>,
                     balances0: map<string, int>, opIds0: map<string, Operation>)
    returns (balances: map<string, int>, opIds: map<string, Operation>)
    ensures balances.Keys == balances0.Keys
    ensures forall m :: m in balances ==>
                          balances[m] == balances0[m] + (if b.minerID == m then Reward(cfg, b) else 0)
                                         - Spent(cfg, b.operations, m)
    ensures opIds == opIds0 - StruckOut(b.operations, files, balances0.Keys)
  {
    balances, opIds := balances0, opIds0;
    if b.minerID in balances {
      if |b.operations| > 0 {
        balances := balances[b.minerID := balances[b.minerID] + cfg.minedCoinsPerOpBlock];
      } else {
        balances := balances[b.minerID := balances[b.minerID] + cfg.minedCoinsPerNoOpBlock];
      }
    }
    ghost var credited := balances;
    for k := 0 to |b.operations|
      invariant balances.Keys == balances0.Keys
      invariant forall m :: m in balances ==> balances[m] == credited[m] - Spent(cfg, b.operations[..k], m)
      invariant opIds == opIds0 - StruckOut(b.operations[..k], files, balances0.Keys)
    {
      balances, opIds := ReplayOperation(cfg, b.operations[k], files, balances, opIds);
      ReplaySnoc(cfg, b.operations, k, files, balances0.Keys);
      RemoveTwice(opIds0, StruckOut(b.operations[..k], files, balances0.Keys),
                  StruckOut([b.operations[k]], files, balances0.Keys));
    }
    assert b.operations[..|b.operations|] == b.operations;
  }

  method ReplayOperation(cfg: Settings, o: Operation, files: map<string, Operation>,
                         balances0: map<string, int>, opIds0: map<string, Operation>)
    returns (balances: map<string, int>, opIds: map<string, Operation>)
    ensures balances.Keys == balances0.Keys
    ensures forall m :: m in balances ==> balances[m] == balances0[m] - if o.minerID == m then Cost(cfg, o) else 0
    ensures opIds == opIds0 - StruckOut([o], files, balances0.Keys)
  {
    balances, opIds := balances0, opIds0;
    if o.minerID in balances {
      var cost := 1;
      if o.op.Create? {
        cost := cfg.numCoinsPerFileCreate;
        if o.filename in files {
          opIds := opIds - {files[o.filename].operationID};
        }
      }
      balances := balances[o.minerID := balances[o.minerID] - cost];
    }
    if o.operationID in opIds {
      opIds := opIds - {o.operationID};
    }
    StruckOutOne(o, files, balances0.Keys);
  }

  lemma ReplaySnoc(cfg: Settings, ops: seq<Operation>, k: nat, files: map<string, Operation>, miners: set<string>)
    requires k < |ops|
    ensures StruckOut(ops[..k + 1], files, miners)
            == StruckOut(ops[..k], files, miners) + StruckOut([ops[k]], files, miners)
    ensures forall m :: Spent(cfg, ops[..k + 1], m)
                        == Spent(cfg, ops[..k], m) + if ops[k].minerID == m then Cost(cfg, ops[k]) else 0
  {
    assert ops[..k + 1] == ops[..k] + [ops[k]];
    StruckOutConcat(ops[..k], [ops[k]], files, miners);
    forall m
      ensures Spent(cfg, ops[..k + 1], m)
              == Spent(cfg, ops[..k], m) + if ops[k].minerID == m then Cost(cfg, ops[k]) else 0
    {
      SpentAppend(cfg, ops[..k], ops[k], m);
    }
  }

  lemma RemoveTwice(table: map<string, Operation>, a: set<string>, b: set<string>)
    ensures table - a - b == table - (a + b)
  {
  }

  lemma StruckOutOne(o: Operation, files: map<string, Operation>, miners: set<string>)
    ensures StruckOut([o], files, miners)
            == {o.operationID} + if o.minerID in miners && o.op.Create? && o.filename in files
                                 then {files[o.filename].operationID} else {}
  {
    assert CreatesIn([o], miners) == if o.minerID in miners && o.op.Create? then {o.filename} else {};
  }

  /** The balances after replaying the blocks of `c` from the end down to position `i`. */
  ghost function BalancesFrom(cfg: Settings, c: seq<Block>, i: nat, ops: seq<Operation>): map<string, int>
    requires i <= |c|
  {
    map k | k in MinersOf(ops) :: Balance(cfg, c, k) - Balance(cfg, c[..i], k)
  }

  method StartReplay(cfg: Settings, ghost c: seq<Block>, ops: seq<Operation>)
    returns (balances: map<string, int>, opIds: map<string, Operation>, files: map<string, Operation>)
    ensures files == CreateByName(ops)
    ensures balances == BalancesFrom(cfg, c, |c|, ops)
    ensures opIds == Survivors(OpsOn(c[|c|..]), ops)
  {
    balances, opIds, files := BuildTables(ops);
    assert c[..|c|] == c && OpsOn(c[|c|..]) == [];
  }

  lemma ReplayedAll(cfg: Settings, c: seq<Block>, ops: seq<Operation>)
    ensures forall k :: k in MinersOf(ops) ==> BalancesFrom(cfg, c, 0, ops)[k] == Balance(cfg, c, k)
    ensures OpsOn(c[0..]) == OpsOn(c)
  {
    assert c[0..] == c && c[..0] == [];
  }

  method ReplayNext(cfg: Settings, ghost c: seq<Block>, ghost i: nat, ghost ops: seq<Operation>, b: Block,
                    files: map<string, Operation>, balances0: map<string, int>, opIds0: map<string, Operation>)
    returns (balances: map<string, int>, opIds: map<string, Operation>)
    requires 0 < i <= |c| && c[i - 1] == b && files == CreateByName(ops)
    requires balances0 == BalancesFrom(cfg, c, i, ops) && opIds0 == Survivors(OpsOn(c[i..]), ops)
    ensures balances == BalancesFrom(cfg, c, i - 1, ops) && opIds == Survivors(OpsOn(c[i - 1..]), ops)
  {
    balances, opIds := ReplayBlock(cfg, b, files, balances0, opIds0);
    StruckBefore(c, i, files, ops);
    BalancesBefore(cfg, c, i, ops, balances);
  }

  lemma {:induction false} BalancesBefore(cfg: Settings, c: seq<Block>, i: nat, ops: seq<Operation>,
                                          balances: map<string, int>)
    requires 0 < i <= |c| && balances.Keys == MinersOf(ops)
    requires var b := c[i - 1];
             forall k :: k in balances ==>
               balances[k] == BalancesFrom(cfg, c, i, ops)[k] + (if b.minerID == k then Reward(cfg, b) else 0)
                              - Spent(cfg, b.operations, k)
    ensures balances == BalancesFrom(cfg, c, i - 1, ops)
  {
    forall k | k in balances
      ensures balances[k] == BalancesFrom(cfg, c, i - 1, ops)[k]
    {
      BalanceBefore(cfg, c, i, k);
    }
  }

  lemma BalanceBefore(cfg: Settings, c: seq<Block>, i: nat, k: string)
    requires 0 < i <= |c|
    ensures Balance(cfg, c[..i], k)
            == Balance(cfg, c[..i - 1], k) + (if c[i - 1].minerID == k then Reward(cfg, c[i - 1]) else 0)
               - Spent(cfg, c[i - 1].operations, k)
  {
    assert c[..i][..i - 1] == c[..i - 1];
  }

  lemma OpsOnBefore(c: seq<Block>, i: nat)
    requires 0 < i <= |c|
    ensures OpsOn(c[i - 1..]) == c[i - 1].operations + OpsOn(c[i..])
  {
    assert c[i - 1..] == [c[i - 1]] + c[i..];
    OpsOnConcat([c[i - 1]], c[i..]);
    assert OpsOn([c[i - 1]]) == OpsOn([]) + c[i - 1].operations;
  }

  lemma StruckBefore(c: seq<Block>, i: nat, files: map<string, Operation>, ops: seq<Operation>)
    requires 0 < i <= |c|
    ensures ById(ops) - StruckOut(OpsOn(c[i..]), files, MinersOf(ops))
                      - StruckOut(c[i - 1].operations, files, MinersOf(ops))
            == ById(ops) - StruckOut(OpsOn(c[i - 1..]), files, MinersOf(ops))
  {
    OpsOnBefore(c, i);
    StruckOutConcat(c[i - 1].operations, OpsOn(c[i..]), files, MinersOf(ops));
    RemoveTwice(ById(ops), StruckOut(OpsOn(c[i..]), files, MinersOf(ops)),
                StruckOut(c[i - 1].operations, files, MinersOf(ops)));
  }

  /** Where greedy spending stands: `kept` has been paid for, `conflicts` could not be. */
  ghost predicate Spending(cfg: Settings, balances: map<string, int>, opIds: map<string, Operation>,
                           left: map<string, int>, todo: set<string>, conflicts: set<string>, kept: seq<Operation>)
  {
    && todo <= opIds.Keys && conflicts <= opIds.Keys && conflicts !! todo
    && left.Keys == balances.Keys
    && (forall id :: id in opIds ==> opIds[id].operationID == id && opIds[id].minerID in balances)
    && DistinctIds(kept) && IdsIn(kept) == opIds.Keys - todo - conflicts
    && (forall o :: o in kept ==> o.operationID in opIds && opIds[o.operationID] == o)
    && (forall m :: m in left ==> left[m] == balances[m] - Spent(cfg, kept, m))
    && (forall m :: m in MinersOf(kept) ==> m in left && left[m] >= 0)
    && (forall id :: id in conflicts ==> left[opIds[id].minerID] < Cost(cfg, opIds[id]))
  }

  lemma KeepOne(cfg: Settings, balances: map<string, int>, opIds: map<string, Operation>,
                left: map<string, int>, todo: set<string>, conflicts: set<string>, kept: seq<Operation>, id: string)
    requires Spending(cfg, balances, opIds, left, todo, conflicts, kept) && id in todo
    requires left[opIds[id].minerID] >= Cost(cfg, opIds[id])
    ensures var o := opIds[id];
            Spending(cfg, balances, opIds, left[o.minerID := left[o.minerID] - Cost(cfg, o)], todo - {id}, conflicts,
                kept + [o])
  {
    var o := opIds[id];
    var left' := left[o.minerID := left[o.minerID] - Cost(cfg, o)];
    DistinctSnoc(kept, o);
    assert opIds.Keys - (todo - {id}) - conflicts == opIds.Keys - todo - conflicts + {id};
    forall m | m in left'
      ensures left'[m] == balances[m] - Spent(cfg, kept + [o], m)
    {
      SpentAppend(cfg, kept, o, m);
    }
    forall m | m in MinersOf(kept + [o])
      ensures m in left' && left'[m] >= 0
    {
      assert m == o.minerID || m in MinersOf(kept);
    }
  }

  /** Spend greedily, visiting the operations in an arbitrary order. */
  method SpendGreedily(cfg: Settings, balances: map<string, int>, opIds: map<string, Operation>)
    returns (conflicts: set<string>, left: map<string, int>, ghost kept: seq<Operation>)
    requires forall id :: id in opIds ==> opIds[id].operationID == id && opIds[id].minerID in balances
    ensures Spending(cfg, balances, opIds, left, {}, conflicts, kept)
  {
    left, conflicts, kept := balances, {}, [];
    var todo := opIds.Keys;
    while todo != {}
      invariant Spending(cfg, balances, opIds, left, todo, conflicts, kept)
      decreases todo
    {
      var id :| id in todo;
      var o := opIds[id];
      var cost := 1;
      if o.op.Create? {
        cost := cfg.numCoinsPerFileCreate;
      }
      if left[o.minerID] - cost < 0 {
        conflicts := conflicts + {id};
      } else {
        KeepOne(cfg, balances, opIds, left, todo, conflicts, kept, id);
        left := left[o.minerID := left[o.minerID] - cost];
        kept := kept + [o];
      }
      todo := todo - {id};
    }
  }

  /** The operations that could be paid for: no further one can be added. */
  method SelectAffordable(cfg: Settings, balances: map<string, int>, opIds: map<string, Operation>)
    returns (valid: seq<Operation>)
    requires forall id :: id in opIds ==> opIds[id].operationID == id && opIds[id].minerID in balances
    ensures DistinctIds(valid)
    ensures forall o :: o in valid ==> o.operationID in opIds && opIds[o.operationID] == o
    ensures forall m :: m in MinersOf(valid) ==> m in balances && Spent(cfg, valid, m) <= balances[m]
    ensures forall id :: id in opIds && opIds[id] !in valid ==>
                           Spent(cfg, valid, opIds[id].minerID) + Cost(cfg, opIds[id]) > balances[opIds[id].minerID]
  {
    var conflicts, left;
    ghost var kept;
    conflicts, left, kept := SpendGreedily(cfg, balances, opIds);
    valid := ListValues(opIds, conflicts);
    SameOperations(opIds, kept, valid);
    forall m
      ensures Spent(cfg, valid, m) == Spent(cfg, kept, m)
    {
      SpentPermuted(cfg, kept, valid, m);
    }
    assert MinersOf(valid) == MinersOf(kept);
    forall id | id in opIds && opIds[id] !in valid
      ensures id in conflicts
    {
      assert id !in IdsIn(kept);
    }
  }

  /** The values of the table without the given keys, in an arbitrary order. */
  method ListValues(opIds: map<string, Operation>, without: set<string>) returns (list: seq<Operation>)
    requires forall id :: id in opIds ==> opIds[id].operationID == id
    ensures DistinctIds(list) && IdsIn(list) == opIds.Keys - without
    ensures forall o :: o in list ==> o.operationID in opIds && opIds[o.operationID] == o
  {
    list := [];
    var todo := opIds.Keys - without;
    while todo != {}
      invariant todo <= opIds.Keys - without
      invariant DistinctIds(list) && IdsIn(list) == opIds.Keys - without - todo
      invariant forall o :: o in list ==> o.operationID in opIds && opIds[o.operationID] == o
      decreases todo
    {
      var id :| id in todo;
      DistinctSnoc(list, opIds[id]);
      list := list + [opIds[id]];
      todo := todo - {id};
    }
  }

  lemma SameOperations(opIds: map<string, Operation>, a: seq<Operation>, b: seq<Operation>)
    requires DistinctIds(a) && DistinctIds(b) && IdsIn(a) == IdsIn(b)
    requires forall o :: o in a ==> o.operationID in opIds && opIds[o.operationID] == o
    requires forall o :: o in b ==> o.operationID in opIds && opIds[o.operationID] == o
    ensures multiset(a) == multiset(b) && forall o :: o in a <==> o in b
  {
    forall o
      ensures o in a <==> o in b
    {
      if o in a {
        assert o.operationID in IdsIn(b);
        var x :| x in b && x.operationID == o.operationID;
      }
      if o in b {
        assert o.operationID in IdsIn(a);
        var x :| x in a && x.operationID == o.operationID;
      }
    }
    DistinctIsPart(a, b);
    DistinctIsPart(b, a);
  }
}
