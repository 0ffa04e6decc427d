/** What it means for a list of operations to be acceptable on top of a chain, said by replaying
    the chain forwards from its root. */
module Accounting {
  import opened Types

  // ---------- coins ----------

  function Cost(cfg: Settings, o: Operation): nat {
    if o.op.Create? then cfg.numCoinsPerFileCreate else 1
  }

  function Reward(cfg: Settings, b: Block): nat {
    if |b.operations| > 0 then cfg.minedCoinsPerOpBlock else cfg.minedCoinsPerNoOpBlock
  }

  /** What `miner` pays for its own operations in the list. */
  function Spent(cfg: Settings, ops: seq<Operation>, miner: string): nat {
    if ops == [] then 0
    else
      var o := ops[|ops| - 1];
      Spent(cfg, ops[..|ops| - 1], miner) + if o.minerID == miner then Cost(cfg, o) else 0
  }

  /** Coins mined minus coins spent by `miner` along the chain. */
  function Balance(cfg: Settings, chain: seq<Block>, miner: string): int {
    if chain == [] then 0
    else
      var b := chain[|chain| - 1];
      Balance(cfg, chain[..|chain| - 1], miner)
      + (if b.minerID == miner then Reward(cfg, b) else 0)
      - Spent(cfg, b.operations, miner)
  }

  // ---------- what is on a chain ----------

  function IdsIn(ops: seq<Operation>): set<string> {
    set o | o in ops :: o.operationID
  }

  function MinersOf(ops: seq<Operation>): set<string> {
    set o | o in ops :: o.minerID
  }

  /** Names of files that miners in `miners` create in the list. */
  function CreatesIn(ops: seq<Operation>, miners: set<string>): set<string> {
    set o | o in ops && o.op.Create? && o.minerID in miners :: o.filename
  }

  /** All operations of a chain, oldest block first. */
  function OpsOn(chain: seq<Block>): seq<Operation> {
    if chain == [] then [] else OpsOn(chain[..|chain| - 1]) + chain[|chain| - 1].operations
  }

  ghost predicate DistinctIds(ops: seq<Operation>) {
    forall i, j :: 0 <= i < j < |ops| ==> ops[i].operationID != ops[j].operationID
  }

  // ---------- acceptance ----------

  /** A list of operations may follow the chain: its IDs are distinct and new, it does not create
      a file again that one of its own miners created before, and every one of its miners can pay. */
  ghost predicate Acceptable(cfg: Settings, chain: seq<Block>, ops: seq<Operation>) {
    && DistinctIds(ops)
    && IdsIn(ops) !! IdsIn(OpsOn(chain))
    && CreatesIn(ops, MinersOf(ops)) !! CreatesIn(OpsOn(chain), MinersOf(ops))
    && forall m :: m in MinersOf(ops) ==> Spent(cfg, ops, m) <= Balance(cfg, chain, m)
  }

  // ---------- lists of operations ----------

  lemma SpentAppend(cfg: Settings, ops: seq<Operation>, o: Operation, m: string)
    ensures Spent(cfg, ops + [o], m) == Spent(cfg, ops, m) + if o.minerID == m then Cost(cfg, o) else 0
  {
    assert (ops + [o])[..|ops|] == ops;
  }

  lemma {:induction false} SpentConcat(cfg: Settings, a: seq<Operation>, b: seq<Operation>, m: string)
    ensures Spent(cfg, a + b, m) == Spent(cfg, a, m) + Spent(cfg, b, m)
  {
    if b == [] {
      assert a + b == a;
    } else {
      var b', o := b[..|b| - 1], b[|b| - 1];
      assert a + b == a + b' + [o];
      SpentAppend(cfg, a + b', o, m);
      SpentConcat(cfg, a, b', m);
    }
  }

  lemma SpentRemove(cfg: Settings, ops: seq<Operation>, k: nat, m: string)
    requires k < |ops|
    ensures Spent(cfg, ops, m)
            == Spent(cfg, ops[..k] + ops[k + 1..], m) + if ops[k].minerID == m then Cost(cfg, ops[k]) else 0
  {
    assert ops == ops[..k] + [ops[k]] + ops[k + 1..];
    SpentConcat(cfg, ops[..k] + [ops[k]], ops[k + 1..], m);
    SpentAppend(cfg, ops[..k], ops[k], m);
    SpentConcat(cfg, ops[..k], ops[k + 1..], m);
  }

  /** Part of a list costs no more than the list. */
  lemma {:induction false} SpentPart(cfg: Settings, part: seq<Operation>, ops: seq<Operation>, m: string)
    requires multiset(part) <= multiset(ops)
    ensures Spent(cfg, part, m) <= Spent(cfg, ops, m)
  {
    if part != [] {
      var front, o := part[..|part| - 1], part[|part| - 1];
      assert part == front + [o];
      assert o in multiset(part);
      assert o in multiset(ops);
      var k :| 0 <= k < |ops| && ops[k] == o;
      var rest := ops[..k] + ops[k + 1..];
      assert ops == ops[..k] + [o] + ops[k + 1..];
      assert multiset(ops) == multiset(rest) + multiset{o};
      assert multiset(front) == multiset(part) - multiset{o};
      SpentPart(cfg, front, rest, m);
      SpentRemove(cfg, ops, k, m);
    }
  }

  lemma SpentPermuted(cfg: Settings, a: seq<Operation>, b: seq<Operation>, m: string)
    requires multiset(a) == multiset(b)
    ensures Spent(cfg, a, m) == Spent(cfg, b, m)
  {
    SpentPart(cfg, a, b, m);
    SpentPart(cfg, b, a, m);
  }

  /** Distinct elements that all come from a list make up a part of it. */
  lemma DistinctIsPart(part: seq<Operation>, ops: seq<Operation>)
    requires DistinctIds(part)
    requires forall o :: o in part ==> o in ops
    ensures multiset(part) <= multiset(ops)
  {
    forall o | o in multiset(part)
      ensures multiset(part)[o] <= multiset(ops)[o]
    {
      AtMostOnce(part, o);
      assert o in ops;
    }
  }

  lemma {:induction false} AtMostOnce(ops: seq<Operation>, o: Operation)
    requires DistinctIds(ops)
    ensures multiset(ops)[o] <= 1
  {
    if ops != [] {
      var front := ops[..|ops| - 1];
      assert ops == front + [ops[|ops| - 1]];
      AtMostOnce(front, o);
      if o in front {
        var i :| 0 <= i < |front| && front[i] == o;
        assert ops[i].operationID != ops[|ops| - 1].operationID;
      }
    }
  }

  lemma {:induction false} IdCount(ops: seq<Operation>)
    ensures |IdsIn(ops)| <= |ops|
    ensures |IdsIn(ops)| == |ops| <==> DistinctIds(ops)
  {
    if ops != [] {
      var front, o := ops[..|ops| - 1], ops[|ops| - 1];
      IdCount(front);
      DistinctSnoc(front, o);
      assert ops == front + [o];
    }
  }

  lemma DistinctSnoc(front: seq<Operation>, o: Operation)
    ensures IdsIn(front + [o]) == IdsIn(front) + {o.operationID}
    ensures MinersOf(front + [o]) == MinersOf(front) + {o.minerID}
    ensures DistinctIds(front + [o]) <==> DistinctIds(front) && o.operationID !in IdsIn(front)
  {
    var ops := front + [o];
    if o.operationID in IdsIn(front) {
      var x :| x in front && x.operationID == o.operationID;
      var i :| 0 <= i < |front| && front[i] == x;
      assert ops[i].operationID == ops[|front|].operationID;
    } else {
      assert forall i :: 0 <= i < |front| ==> front[i].operationID in IdsIn(front);
    }
    if DistinctIds(ops) {
      assert forall i :: 0 <= i < |front| ==> front[i] == ops[i];
    }
  }

  lemma {:induction false} OpsOnConcat(a: seq<Block>, b: seq<Block>)
    ensures OpsOn(a + b) == OpsOn(a) + OpsOn(b)
  {
    if b == [] {
      assert a + b == a;
    } else {
      var b', x := b[..|b| - 1], b[|b| - 1];
      assert (a + b)[..|a + b| - 1] == a + b';
      OpsOnConcat(a, b');
    }
  }

  lemma DistinctConcat(a: seq<Operation>, b: seq<Operation>)
    requires DistinctIds(a) && DistinctIds(b) && IdsIn(a) !! IdsIn(b)
    ensures DistinctIds(a + b) && IdsIn(a + b) == IdsIn(a) + IdsIn(b)
  {
    var s := a + b;
    forall i, j | 0 <= i < j < |s|
      ensures s[i].operationID != s[j].operationID
    {
      if i < |a| <= j {
        assert a[i].operationID in IdsIn(a);
        assert b[j - |a|].operationID in IdsIn(b);
      }
    }
  }

  lemma {:induction false} OpsOnHas(c: seq<Block>, i: nat, o: Operation)
    requires i < |c| && o in c[i].operations
    ensures o in OpsOn(c)
  {
    if i < |c| - 1 {
      OpsOnHas(c[..|c| - 1], i, o);
    }
  }

  // ---------- the same by counting ----------

  /** For how many of the first `n` places something holds. */
  ghost function Places(n: nat, holds: int -> bool): nat {
    |set i | 0 <= i < n && holds(i)|
  }

  ghost function CreatesBy(ops: seq<Operation>, m: string): nat {
    Places(|ops|, i => 0 <= i < |ops| && ops[i].minerID == m && ops[i].op.Create?)
  }

  ghost function OthersBy(ops: seq<Operation>, m: string): nat {
    Places(|ops|, i => 0 <= i < |ops| && ops[i].minerID == m && (ops[i].op.Append? || ops[i].op.Delete?))
  }

  ghost function OpBlocksBy(chain: seq<Block>, m: string): nat {
    Places(|chain|, i => 0 <= i < |chain| && chain[i].minerID == m && chain[i].operations != [])
  }

  ghost function NoOpBlocksBy(chain: seq<Block>, m: string): nat {
    Places(|chain|, i => 0 <= i < |chain| && chain[i].minerID == m && chain[i].operations == [])
  }

  /** A create has its own price, an append or a delete costs one coin. */
  ghost function Price(cfg: Settings, ops: seq<Operation>, m: string): nat {
    cfg.numCoinsPerFileCreate * CreatesBy(ops, m) + OthersBy(ops, m)
  }

  /** Blocks with operations and blocks without have their own rewards. */
  ghost function Income(cfg: Settings, chain: seq<Block>, m: string): nat {
    cfg.minedCoinsPerOpBlock * OpBlocksBy(chain, m) + cfg.minedCoinsPerNoOpBlock * NoOpBlocksBy(chain, m)
  }

  /** Whatever `m` has mined on the chain covers its operations there and in the list. */
  ghost predicate CanPay(cfg: Settings, chain: seq<Block>, ops: seq<Operation>, m: string) {
    Price(cfg, OpsOn(chain), m) + Price(cfg, ops, m) <= Income(cfg, chain, m)
  }

  lemma OnePlaceMore(n: nat, before: int -> bool, after: int -> bool)
    requires forall i :: 0 <= i < n ==> before(i) == after(i)
    ensures Places(n + 1, after) == Places(n, before) + if after(n) then 1 else 0
  {
    var few, many := set i | 0 <= i < n && before(i), set i | 0 <= i < n + 1 && after(i);
    assert many == few + if after(n) then {n} else {};
  }

  lemma OperationsSnoc(front: seq<Operation>, o: Operation, m: string)
    ensures CreatesBy(front + [o], m) == CreatesBy(front, m) + if o.minerID == m && o.op.Create? then 1 else 0
    ensures OthersBy(front + [o], m)
            == OthersBy(front, m) + if o.minerID == m && (o.op.Append? || o.op.Delete?) then 1 else 0
  {
    var ops := front + [o];
    OnePlaceMore(|front|, i => 0 <= i < |front| && front[i].minerID == m && front[i].op.Create?,
                 i => 0 <= i < |ops| && ops[i].minerID == m && ops[i].op.Create?);
    OnePlaceMore(|front|,
                 i => 0 <= i < |front| && front[i].minerID == m && (front[i].op.Append? || front[i].op.Delete?),
                 i => 0 <= i < |ops| && ops[i].minerID == m && (ops[i].op.Append? || ops[i].op.Delete?));
  }

  lemma BlocksSnoc(front: seq<Block>, b: Block, m: string)
    ensures OpBlocksBy(front + [b], m) == OpBlocksBy(front, m) + if b.minerID == m && b.operations != [] then 1 else 0
    ensures NoOpBlocksBy(front + [b], m)
            == NoOpBlocksBy(front, m) + if b.minerID == m && b.operations == [] then 1 else 0
  {
    var chain := front + [b];
    OnePlaceMore(|front|, i => 0 <= i < |front| && front[i].minerID == m && front[i].operations != [],
                 i => 0 <= i < |chain| && chain[i].minerID == m && chain[i].operations != []);
    OnePlaceMore(|front|, i => 0 <= i < |front| && front[i].minerID == m && front[i].operations == [],
                 i => 0 <= i < |chain| && chain[i].minerID == m && chain[i].operations == []);
  }

  lemma OnceMore(price: nat, k: nat)
    ensures price * (k + 1) == price * k + price
  {
  }

  lemma PriceSnoc(cfg: Settings, front: seq<Operation>, o: Operation, m: string)
    ensures Price(cfg, front + [o], m) == Price(cfg, front, m) + if o.minerID == m then Cost(cfg, o) else 0
  {
    OperationsSnoc(front, o, m);
    OnceMore(cfg.numCoinsPerFileCreate, CreatesBy(front, m));
  }

  lemma IncomeSnoc(cfg: Settings, front: seq<Block>, b: Block, m: string)
    ensures Income(cfg, front + [b], m) == Income(cfg, front, m) + if b.minerID == m then Reward(cfg, b) else 0
  {
    BlocksSnoc(front, b, m);
    OnceMore(cfg.minedCoinsPerOpBlock, OpBlocksBy(front, m));
    OnceMore(cfg.minedCoinsPerNoOpBlock, NoOpBlocksBy(front, m));
  }

  /** What a miner spends is the price of its creates and one coin for each of its appends and deletes. */
  lemma {:induction false} SpentByCounting(cfg: Settings, ops: seq<Operation>, m: string)
    ensures Spent(cfg, ops, m) == Price(cfg, ops, m)
  {
    if ops != [] {
      var front, o := ops[..|ops| - 1], ops[|ops| - 1];
      assert ops == front + [o];
      SpentByCounting(cfg, front, m);
      PriceSnoc(cfg, front, o, m);
    }
  }

  /** A balance is what the miner's blocks of each kind have brought, minus what all its operations cost. */
  lemma {:induction false} BalanceIsIncome(cfg: Settings, chain: seq<Block>, m: string)
    ensures Balance(cfg, chain, m) == Income(cfg, chain, m) - Spent(cfg, OpsOn(chain), m)
  {
    if chain != [] {
      var front, b := chain[..|chain| - 1], chain[|chain| - 1];
      assert chain == front + [b];
      BalanceIsIncome(cfg, front, m);
      IncomeSnoc(cfg, front, b, m);
      SpentConcat(cfg, OpsOn(front), b.operations, m);
    }
  }

  lemma {:induction false} BalanceByCounting(cfg: Settings, chain: seq<Block>, m: string)
    ensures Balance(cfg, chain, m) == Income(cfg, chain, m) - Price(cfg, OpsOn(chain), m)
  {
    BalanceIsIncome(cfg, chain, m);
    SpentByCounting(cfg, OpsOn(chain), m);
  }

  /** No file is created again that one of the miners of the list has created before. */
  ghost predicate NoneRecreated(past: seq<Operation>, ops: seq<Operation>) {
    forall o, p, q :: o in ops && p in past && q in ops && o.op.Create? && p.op.Create? && p.minerID == q.minerID ==>
        o.filename != p.filename
  }

  /** Acceptance in terms of the operations alone: no ID occurs twice, here or before; no file is created again that a
      miner of the list has created before; and every miner of the list can pay, by counting. */
  ghost predicate MayFollow(cfg: Settings, chain: seq<Block>, ops: seq<Operation>) {
    var past := OpsOn(chain);
    && (forall i, j :: 0 <= i < j < |ops| ==> ops[i].operationID != ops[j].operationID)
    && (forall o, p :: o in ops && p in past ==> o.operationID != p.operationID)
    && NoneRecreated(past, ops)
    && (forall o :: o in ops ==> CanPay(cfg, chain, ops, o.minerID))
  }

  lemma PayingByCounting(cfg: Settings, chain: seq<Block>, ops: seq<Operation>, m: string)
    ensures Spent(cfg, ops, m) <= Balance(cfg, chain, m) <==> CanPay(cfg, chain, ops, m)
  {
    SpentByCounting(cfg, ops, m);
    BalanceByCounting(cfg, chain, m);
  }

  lemma AllPayByCounting(cfg: Settings, chain: seq<Block>, ops: seq<Operation>)
    ensures (forall m :: m in MinersOf(ops) ==> Spent(cfg, ops, m) <= Balance(cfg, chain, m))
       <==> (forall o :: o in ops ==> CanPay(cfg, chain, ops, o.minerID))
  {
    forall m
      ensures Spent(cfg, ops, m) <= Balance(cfg, chain, m) <==> CanPay(cfg, chain, ops, m)
    {
      PayingByCounting(cfg, chain, ops, m);
    }
    assert forall o :: o in ops ==> o.minerID in MinersOf(ops);
  }

  lemma CreatesByCases(past: seq<Operation>, ops: seq<Operation>)
    ensures CreatesIn(ops, MinersOf(ops)) !! CreatesIn(past, MinersOf(ops)) <==> NoneRecreated(past, ops)
  {
    var mine, theirs := CreatesIn(ops, MinersOf(ops)), CreatesIn(past, MinersOf(ops));
    if mine !! theirs {
      forall o, p, q | o in ops && p in past && q in ops && o.op.Create? && p.op.Create? && p.minerID == q.minerID
        ensures o.filename != p.filename
      {
        assert o.minerID in MinersOf(ops) && q.minerID in MinersOf(ops);
        assert o.filename in mine && p.filename in theirs;
      }
    }
  }

  lemma IdsByCases(past: seq<Operation>, ops: seq<Operation>)
    ensures IdsIn(ops) !! IdsIn(past) <==> (forall o, p :: o in ops && p in past ==> o.operationID != p.operationID)
  {
    if IdsIn(ops) !! IdsIn(past) {
      forall o, p | o in ops && p in past
        ensures o.operationID != p.operationID
      {
        assert o.operationID in IdsIn(ops) && p.operationID in IdsIn(past);
      }
    }
  }

  /** The two ways to say what is acceptable agree. */
  lemma AcceptableByCounting(cfg: Settings, chain: seq<Block>, ops: seq<Operation>)
    ensures Acceptable(cfg, chain, ops) <==> MayFollow(cfg, chain, ops)
  {
    IdsByCases(OpsOn(chain), ops);
    CreatesByCases(OpsOn(chain), ops);
    AllPayByCounting(cfg, chain, ops);
  }
}
