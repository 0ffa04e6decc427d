/** All ledgers of a network at once: miners that start from new chains, add blocks and dial each other, in any order.
    A miner that has dialled holds an adopted ledger and goes on from there. */
module LedgerNetwork {
  import opened Types
  import opened BlockTree
  import opened Growth
  import opened Accounting
  import opened Ledger
  import opened Serialization
  import opened PeerLinks

  type World = map<Id, Tree>

  datatype Move =
    | Add(i: Id, b: Block)            // miner i calls AddBlock
    | Dial(caller: Id, callee: Id)    // the two run the handshake

  /** The ledger is sound, can be sent and linked again, and has no empty hash. */
  ghost predicate InOrder(rules: Rules, t: Tree) {
    Sound(rules, t) && Portable(t) && [] !in t.blocks
  }

  ghost predicate AllInOrder(rules: Rules, w: World) {
    forall i {:trigger w[i]} :: i in w ==> InOrder(rules, w[i])
  }

  ghost predicate Enabled(w: World, mv: Move) {
    match mv
    case Add(i, b) => i in w && b.hash != []
    case Dial(caller, callee) => caller in w && callee in w
  }

  ghost function Next(rules: Rules, w: World, mv: Move): World
    requires Enabled(w, mv) && AllInOrder(rules, w)
  {
    match mv
    case Add(i, b) => w[i := Offer(RuleOf(rules), w[i], b)]
    case Dial(caller, callee) =>
      var agreed := Agreed(w[caller], w[callee]);
      w[caller := agreed][callee := agreed]
  }

  lemma {:induction false} OfferStaysInOrder(rules: Rules, t: Tree, b: Block)
    requires InOrder(rules, t) && b.hash != []
    ensures InOrder(rules, Offer(RuleOf(rules), t, b))
  {
    OfferKeepsHonest(RuleOf(rules), t, b);
    assert FromGenesis(t, t.genesis);
  }

  lemma {:induction false} MoveKeepsOrder(rules: Rules, w: World, mv: Move)
    requires AllInOrder(rules, w) && Enabled(w, mv)
    ensures AllInOrder(rules, Next(rules, w, mv))
  {
    if mv.Add? {
      OfferStaysInOrder(rules, w[mv.i], mv.b);
    }
  }

  /** Every miner has a new chain, with a genesis block of its own time. */
  ghost predicate AllNew(rules: Rules, w: World) {
    forall i {:trigger w[i]} :: i in w ==> exists now :: w[i] == Single(GenesisBlock(rules.cfg, now))
  }

  lemma {:induction false} NewIsInOrder(rules: Rules, w: World)
    requires rules.cfg.genesisBlockHash != [] && AllNew(rules, w)
    ensures AllInOrder(rules, w)
  {
    forall i | i in w
      ensures InOrder(rules, w[i])
    {
      var now :| w[i] == Single(GenesisBlock(rules.cfg, now));
    }
  }

  ghost predicate MoveAt(rules: Rules, ws: seq<World>, mvs: seq<Move>, k: int) {
    && 0 <= k < |mvs| && |ws| == |mvs| + 1 && Enabled(ws[k], mvs[k])
    && (AllInOrder(rules, ws[k]) ==> ws[k + 1] == Next(rules, ws[k], mvs[k]))
  }

  ghost predicate IsRun(rules: Rules, ws: seq<World>, mvs: seq<Move>) {
    && |ws| == |mvs| + 1 && rules.cfg.genesisBlockHash != [] && AllNew(rules, ws[0])
    && (forall k {:trigger MoveAt(rules, ws, mvs, k)} :: 0 <= k < |mvs| ==> MoveAt(rules, ws, mvs, k))
  }

  lemma {:induction false} RunKeepsOrder(rules: Rules, ws: seq<World>, mvs: seq<Move>, k: nat)
    requires IsRun(rules, ws, mvs) && k < |ws|
    ensures AllInOrder(rules, ws[k])
  {
    if k == 0 {
      NewIsInOrder(rules, ws[0]);
    } else {
      RunKeepsOrder(rules, ws, mvs, k - 1);
      assert MoveAt(rules, ws, mvs, k - 1);
      MoveKeepsOrder(rules, ws[k - 1], mvs[k - 1]);
    }
  }

  /** In every network run, for every miner, block and payer: no ledger has overspending or a repeated operation ID on
      the path to any block, and every ledger survives being sent and linked again. */
  lemma {:induction false} EveryLedgerStaysSound(rules: Rules, ws: seq<World>, mvs: seq<Move>, k: nat, i: Id, h: Hash,
                                                 payer: string)
    requires IsRun(rules, ws, mvs) && k < |ws| && i in ws[k] && h in ws[k][i].blocks
    ensures Sound(rules, ws[k][i]) && Rebuilds(ws[k][i])
    ensures Balance(rules.cfg, Chain(ws[k][i], h), payer) >= 0
    ensures DistinctIds(OpsOn(Chain(ws[k][i], h)))
  {
    RunKeepsOrder(rules, ws, mvs, k);
    var t := ws[k][i];
    assert InOrder(rules, t) && FromGenesis(t, h);
    RebuildsExactly(t);
    SoundChainIsSolvent(rules, t, Chain(t, h), payer);
    SoundChainHasDistinctIds(rules, t, Chain(t, h));
  }
}
