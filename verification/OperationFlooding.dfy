/** Gossip of one client operation with growing ignore lists: the floodOperation case of managePeers at all miners,
    over fixed peer links. */
module OperationFlooding {
  import opened Types
  import opened PeerLinks

  /** A FloodOpReq on its way. */
  datatype Message = Message(to: Id, ignore: set<Id>)

  /** `has` are the miners that have handled the operation. */
  datatype Gossip = Gossip(has: set<Id>, wire: seq<Message>)

  /** Message number `k` arrives, and is sent on to `targets`, in that order. */
  datatype Move = Move(k: nat, targets: seq<Id>)

  ghost predicate Enabled(links: Links, n: Gossip, mv: Move) {
    && mv.k < |n.wire| && n.wire[mv.k].to in links
    && Lists(mv.targets, links[n.wire[mv.k].to] - n.wire[mv.k].ignore)
  }

  ghost function NewIgnore(links: Links, msg: Message): set<Id>
    requires msg.to in links
  {
    msg.ignore + links[msg.to] + {msg.to}
  }

  ghost function Spread(targets: seq<Id>, ignore: set<Id>): seq<Message> {
    seq(|targets|, i requires 0 <= i < |targets| => Message(targets[i], ignore))
  }

  ghost function Next(links: Links, n: Gossip, mv: Move): Gossip
    requires Enabled(links, n, mv)
  {
    var msg := n.wire[mv.k];
    Gossip(n.has + {msg.to}, n.wire[..mv.k] + n.wire[mv.k + 1..] + Spread(mv.targets, NewIgnore(links, msg)))
  }

  // ---------- coverage ----------

  /** The miner has the operation, or a message with it is on its way there. */
  ghost predicate Told(n: Gossip, i: Id) {
    i in n.has || exists k {:trigger n.wire[k]} :: 0 <= k < |n.wire| && n.wire[k].to == i
  }

  /** A message goes to a miner, and everyone it says to ignore is a miner that has been told. */
  ghost predicate MessageOk(links: Links, n: Gossip, msg: Message) {
    && msg.to in links && msg.ignore <= links.Keys
    && (forall i {:trigger Told(n, i)} :: i in msg.ignore ==> Told(n, i))
  }

  ghost predicate PeersTold(links: Links, n: Gossip, i: Id) {
    i in links && (forall j {:trigger Told(n, j)} :: j in links[i] ==> Told(n, j))
  }

  /** The invariant: ignored miners have been told, and so have all peers of a miner that has the operation. */
  ghost predicate Covered(links: Links, n: Gossip) {
    && (forall k {:trigger MessageOk(links, n, n.wire[k])} :: 0 <= k < |n.wire| ==> MessageOk(links, n, n.wire[k]))
    && (forall i {:trigger PeersTold(links, n, i)} :: i in n.has ==> PeersTold(links, n, i))
  }

  lemma {:induction false} StaysTold(links: Links, n: Gossip, mv: Move, i: Id)
    requires Enabled(links, n, mv) && Told(n, i)
    ensures Told(Next(links, n, mv), i)
  {
    var n' := Next(links, n, mv);
    if i !in n'.has {
      var k :| 0 <= k < |n.wire| && n.wire[k].to == i;
      var x := if k < mv.k then k else k - 1;
      assert n'.wire[x] == n.wire[k];
    }
  }

  lemma {:induction false} TargetTold(links: Links, n: Gossip, mv: Move, i: Id)
    requires Enabled(links, n, mv) && i in mv.targets
    ensures Told(Next(links, n, mv), i)
  {
    var n' := Next(links, n, mv);
    var x :| 0 <= x < |mv.targets| && mv.targets[x] == i;
    assert n'.wire[|n.wire| - 1 + x] == Message(i, NewIgnore(links, n.wire[mv.k]));
  }

  /** After a delivery, the receiver, its peers and everyone it was told to ignore have been told. */
  lemma {:induction false} NewIgnoreTold(links: Links, n: Gossip, mv: Move, i: Id)
    requires Enabled(links, n, mv) && MessageOk(links, n, n.wire[mv.k]) && i in NewIgnore(links, n.wire[mv.k])
    ensures Told(Next(links, n, mv), i)
  {
    var msg := n.wire[mv.k];
    if i in msg.ignore {
      StaysTold(links, n, mv, i);
    } else if i != msg.to {
      TargetTold(links, n, mv, i);
    }
  }

  lemma {:induction false} MessageStaysOk(links: Links, n: Gossip, mv: Move, msg: Message)
    requires Enabled(links, n, mv) && MessageOk(links, n, msg)
    ensures MessageOk(links, Next(links, n, mv), msg)
  {
    forall i | i in msg.ignore
      ensures Told(Next(links, n, mv), i)
    {
      assert Told(n, i);
      StaysTold(links, n, mv, i);
    }
  }

  lemma {:induction false} NewMessageOk(links: Links, n: Gossip, mv: Move, i: Id)
    requires Joined(links) && Enabled(links, n, mv) && MessageOk(links, n, n.wire[mv.k]) && i in mv.targets
    ensures MessageOk(links, Next(links, n, mv), Message(i, NewIgnore(links, n.wire[mv.k])))
  {
    forall j | j in NewIgnore(links, n.wire[mv.k])
      ensures Told(Next(links, n, mv), j)
    {
      NewIgnoreTold(links, n, mv, j);
    }
  }

  lemma {:induction false} MessagesOk(links: Links, n: Gossip, mv: Move, x: nat)
    requires Joined(links) && Covered(links, n) && Enabled(links, n, mv) && x < |Next(links, n, mv).wire|
    ensures MessageOk(links, Next(links, n, mv), Next(links, n, mv).wire[x])
  {
    var msg := Next(links, n, mv).wire[x];
    if x < |n.wire| - 1 {
      var k := if x < mv.k then x else x + 1;
      assert msg == n.wire[k];
      assert MessageOk(links, n, n.wire[k]);
      MessageStaysOk(links, n, mv, msg);
    } else {
      assert MessageOk(links, n, n.wire[mv.k]);
      NewMessageOk(links, n, mv, mv.targets[x - (|n.wire| - 1)]);
    }
  }

  lemma {:induction false} PeersStayTold(links: Links, n: Gossip, mv: Move, i: Id)
    requires Covered(links, n) && Enabled(links, n, mv) && i in Next(links, n, mv).has
    ensures PeersTold(links, Next(links, n, mv), i)
  {
    assert i in n.has ==> PeersTold(links, n, i);
    forall j | j in links[i]
      ensures Told(Next(links, n, mv), j)
    {
      if i == n.wire[mv.k].to {
        assert MessageOk(links, n, n.wire[mv.k]);
        NewIgnoreTold(links, n, mv, j);
      } else {
        assert PeersTold(links, n, i) && Told(n, j);
        StaysTold(links, n, mv, j);
      }
    }
  }

  lemma {:induction false} MoveKeepsCovered(links: Links, n: Gossip, mv: Move)
    requires Joined(links) && Covered(links, n) && Enabled(links, n, mv)
    ensures Covered(links, Next(links, n, mv))
  {
    forall x | 0 <= x < |Next(links, n, mv).wire|
      ensures MessageOk(links, Next(links, n, mv), Next(links, n, mv).wire[x])
    {
      MessagesOk(links, n, mv, x);
    }
    forall i | i in Next(links, n, mv).has
      ensures PeersTold(links, Next(links, n, mv), i)
    {
      PeersStayTold(links, n, mv, i);
    }
  }

  // ---------- termination ----------

  ghost function Power(b: nat, e: nat): (r: nat)
    ensures b > 0 ==> r > 0
  {
    if e == 0 then 1 else b * Power(b, e - 1)
  }

  lemma {:induction false} PowerRises(b: nat, d: nat, e: nat)
    requires b > 0 && d <= e
    ensures Power(b, d) <= Power(b, e)
  {
    if d < e {
      PowerRises(b, d, e - 1);
      assert b * Power(b, e - 1) >= 1 * Power(b, e - 1);
    }
  }

  /** The more miners a message may still be sent to, the more it weighs. */
  ghost function Worth(all: set<Id>, ignore: set<Id>): nat {
    Power(|all| + 1, |all - ignore|)
  }

  ghost function Weight(all: set<Id>, wire: seq<Message>): nat {
    if wire == [] then 0 else Worth(all, wire[0].ignore) + Weight(all, wire[1..])
  }

  lemma {:induction false} WeightConcat(all: set<Id>, a: seq<Message>, b: seq<Message>)
    ensures Weight(all, a + b) == Weight(all, a) + Weight(all, b)
  {
    if a == [] {
      assert a + b == b;
    } else {
      assert (a + b)[1..] == a[1..] + b;
      WeightConcat(all, a[1..], b);
    }
  }

  lemma {:induction false} WeightSpread(all: set<Id>, targets: seq<Id>, ignore: set<Id>)
    ensures Weight(all, Spread(targets, ignore)) == |targets| * Worth(all, ignore)
  {
    if targets != [] {
      assert Spread(targets, ignore)[1..] == Spread(targets[1..], ignore);
      WeightSpread(all, targets[1..], ignore);
      var w := Worth(all, ignore);
      assert |targets| * w == w + |targets[1..]| * w;
    }
  }

  /** A message that is sent on weighs more than all its copies together: there are fewer copies than miners, and
      each ignores at least one more miner. */
  lemma {:induction false} CopiesWeighLess(links: Links, msg: Message, targets: seq<Id>)
    requires Joined(links) && msg.to in links && Lists(targets, links[msg.to] - msg.ignore)
    ensures Weight(links.Keys, Spread(targets, NewIgnore(links, msg))) < Worth(links.Keys, msg.ignore)
  {
    var all, ignore := links.Keys, NewIgnore(links, msg);
    WeightSpread(all, targets, ignore);
    ListLength(targets, links[msg.to] - msg.ignore);
    if targets != [] {
      SubsetSize(links[msg.to] - msg.ignore, all);
      assert targets[0] in targets;
      OneFewerLeft(all, msg.ignore, ignore, targets[0]);
      CopiesAreWorthLess(all, msg.ignore, ignore, |targets|);
    }
  }

  lemma {:induction false} CopiesAreWorthLess(all: set<Id>, ignore: set<Id>, more: set<Id>, copies: nat)
    requires |all - more| < |all - ignore| && copies <= |all|
    ensures copies * Worth(all, more) < Worth(all, ignore)
  {
    var base, e := |all| + 1, |all - ignore|;
    PowerRises(base, |all - more|, e - 1);
    LessThanBase(copies, base, Worth(all, more), Power(base, e - 1));
  }

  lemma {:induction false} OneFewerLeft(all: set<Id>, ignore: set<Id>, more: set<Id>, p: Id)
    requires ignore <= more && p in all && p !in ignore && p in more
    ensures |all - more| < |all - ignore|
  {
    SubsetSize(all - more, (all - ignore) - {p});
  }

  lemma {:induction false} LessThanBase(k: nat, base: nat, w: nat, v: nat)
    requires k < base && w <= v && 0 < v
    ensures k * w < base * v
  {
    assert k * w <= k * v;
    assert k * v < base * v;
  }

  lemma {:induction false} MoveWeighsLess(links: Links, n: Gossip, mv: Move)
    requires Joined(links) && Enabled(links, n, mv)
    ensures Weight(links.Keys, Next(links, n, mv).wire) < Weight(links.Keys, n.wire)
  {
    var all, msg := links.Keys, n.wire[mv.k];
    var before, after := n.wire[..mv.k], n.wire[mv.k + 1..];
    assert n.wire == before + ([msg] + after);
    WeightConcat(all, before, [msg] + after);
    assert ([msg] + after)[1..] == after;
    WeightConcat(all, before, after);
    WeightConcat(all, before + after, Spread(mv.targets, NewIgnore(links, msg)));
    CopiesWeighLess(links, msg, mv.targets);
  }

  // ---------- runs ----------

  ghost predicate MoveAt(links: Links, ns: seq<Gossip>, mvs: seq<Move>, i: int) {
    && 0 <= i < |mvs| && |ns| == |mvs| + 1
    && Enabled(links, ns[i], mvs[i]) && ns[i + 1] == Next(links, ns[i], mvs[i])
  }

  /** A run from the origin's own request, which ignores nobody. */
  ghost predicate IsRun(links: Links, origin: Id, ns: seq<Gossip>, mvs: seq<Move>) {
    AreMoves(links, ns, mvs) && ns[0] == Gossip({}, [Message(origin, {})])
  }

  ghost predicate AreMoves(links: Links, ns: seq<Gossip>, mvs: seq<Move>) {
    && |ns| == |mvs| + 1
    && (forall i {:trigger MoveAt(links, ns, mvs, i)} :: 0 <= i < |mvs| ==> MoveAt(links, ns, mvs, i))
  }

  lemma {:induction false} RunKeepsCovered(links: Links, origin: Id, ns: seq<Gossip>, mvs: seq<Move>, k: nat)
    requires Joined(links) && origin in links && IsRun(links, origin, ns, mvs) && k < |ns|
    ensures Covered(links, ns[k]) && Told(ns[k], origin)
  {
    if k == 0 {
      assert ns[0].wire[0] == Message(origin, {});
    } else {
      RunKeepsCovered(links, origin, ns, mvs, k - 1);
      assert MoveAt(links, ns, mvs, k - 1);
      MoveKeepsCovered(links, ns[k - 1], mvs[k - 1]);
      StaysTold(links, ns[k - 1], mvs[k - 1], origin);
    }
  }

  lemma {:induction false} SilenceCoversPath(links: Links, n: Gossip, path: seq<Id>, k: nat)
    requires Covered(links, n) && n.wire == [] && IsPath(links, path) && k < |path| && path[0] in n.has
    ensures path[k] in n.has
  {
    if k > 0 {
      SilenceCoversPath(links, n, path, k - 1);
      assert LinkAt(links, path, k) && PeersTold(links, n, path[k - 1]) && Told(n, path[k]);
    }
  }

  /** When no message is left, every miner linked to the origin by any number of links has the operation. */
  lemma {:induction false} EveryLinkedMinerIsTold(links: Links, origin: Id, ns: seq<Gossip>, mvs: seq<Move>,
                                                  path: seq<Id>)
    requires Joined(links) && origin in links && IsRun(links, origin, ns, mvs)
    requires ns[|mvs|].wire == [] && IsPath(links, path) && path[0] == origin
    ensures path[|path| - 1] in ns[|mvs|].has
  {
    RunKeepsCovered(links, origin, ns, mvs, |mvs|);
    SilenceCoversPath(links, ns[|mvs|], path, |path| - 1);
  }

  /** Nobody else is told: whoever has the operation, or is about to, is linked to the origin. */
  lemma {:induction false} OnlyLinkedMinersAreTold(links: Links, origin: Id, ns: seq<Gossip>, mvs: seq<Move>, k: nat,
                                                   i: Id)
    requires IsRun(links, origin, ns, mvs) && k < |ns| && Told(ns[k], i)
    ensures exists path :: IsPath(links, path) && path[0] == origin && path[|path| - 1] == i
    decreases k
  {
    if k == 0 {
      assert IsPath(links, [origin]) && [origin][0] == origin;
    } else {
      assert MoveAt(links, ns, mvs, k - 1);
      var n, mv := ns[k - 1], mvs[k - 1];
      if Told(n, i) {
        OnlyLinkedMinersAreTold(links, origin, ns, mvs, k - 1, i);
      } else {
        var to := n.wire[mv.k].to;
        NewlyTold(links, n, mv, i);
        OnlyLinkedMinersAreTold(links, origin, ns, mvs, k - 1, to);
        var path :| IsPath(links, path) && path[0] == origin && path[|path| - 1] == to;
        LongerPath(links, path, i);
        assert (path + [i])[0] == origin;
      }
    }
  }

  /** The message ignores the origin and goes to someone else. */
  ghost predicate LeavesOut(msg: Message, origin: Id) {
    origin in msg.ignore && msg.to != origin
  }

  ghost predicate AllLeaveOut(n: Gossip, origin: Id) {
    forall k {:trigger n.wire[k]} :: 0 <= k < |n.wire| ==> LeavesOut(n.wire[k], origin)
  }

  /** A copy leaves out whoever the message left out, and whoever sends it. */
  lemma {:induction false} CopiesLeaveOut(links: Links, n: Gossip, mv: Move, origin: Id)
    requires Enabled(links, n, mv)
    requires var msg := n.wire[mv.k]; origin in msg.ignore || (msg.to == origin && origin !in links[origin])
    requires forall k {:trigger n.wire[k]} :: 0 <= k < |n.wire| && k != mv.k ==> LeavesOut(n.wire[k], origin)
    ensures AllLeaveOut(Next(links, n, mv), origin)
  {
    var n' := Next(links, n, mv);
    forall x | 0 <= x < |n'.wire|
      ensures LeavesOut(n'.wire[x], origin)
    {
      if x < |n.wire| - 1 {
        assert n'.wire[x] == n.wire[if x < mv.k then x else x + 1];
      } else {
        assert mv.targets[x - (|n.wire| - 1)] in mv.targets;
      }
    }
  }

  /** In any run, once the origin has sent its operation out, no message with it goes to the origin. */
  lemma {:induction false} NeverSentToTheOrigin(links: Links, origin: Id, ns: seq<Gossip>, mvs: seq<Move>, k: nat)
    requires IsRun(links, origin, ns, mvs) && 0 < k < |ns| && (origin in links ==> origin !in links[origin])
    ensures AllLeaveOut(ns[k], origin)
  {
    assert MoveAt(links, ns, mvs, k - 1);
    if k > 1 {
      NeverSentToTheOrigin(links, origin, ns, mvs, k - 1);
    }
    CopiesLeaveOut(links, ns[k - 1], mvs[k - 1], origin);
  }

  lemma {:induction false} NewlyTold(links: Links, n: Gossip, mv: Move, i: Id)
    requires Enabled(links, n, mv) && Told(Next(links, n, mv), i)
    ensures Told(n, i) || i in links[n.wire[mv.k].to]
  {
    var n' := Next(links, n, mv);
    if i in n'.has {
      assert i in n.has || n.wire[mv.k].to == i;
    } else {
      var x :| 0 <= x < |n'.wire| && n'.wire[x].to == i;
      if x < |n.wire| - 1 {
        assert n'.wire[x] == n.wire[if x < mv.k then x else x + 1];
      } else {
        assert i == mv.targets[x - (|n.wire| - 1)];
        assert i in mv.targets;
      }
    }
  }

  lemma {:induction false} LongerPath(links: Links, path: seq<Id>, i: Id)
    requires IsPath(links, path) && path[|path| - 1] in links && i in links[path[|path| - 1]]
    ensures IsPath(links, path + [i])
  {
    forall k | 0 < k < |path| + 1
      ensures LinkAt(links, path + [i], k)
    {
      assert k < |path| ==> LinkAt(links, path, k);
    }
  }

  lemma {:induction false} MoveAtWeighsLess(links: Links, ns: seq<Gossip>, mvs: seq<Move>, k: nat)
    requires Joined(links) && MoveAt(links, ns, mvs, k)
    ensures Weight(links.Keys, ns[k + 1].wire) < Weight(links.Keys, ns[k].wire)
  {
    MoveWeighsLess(links, ns[k], mvs[k]);
  }

  ghost predicate DropsAfter(ws: seq<nat>, i: nat) {
    i + 1 < |ws| ==> ws[i + 1] < ws[i]
  }

  lemma {:induction false} Falls(ws: seq<nat>, k: nat)
    requires k < |ws| && forall i {:trigger DropsAfter(ws, i)} :: DropsAfter(ws, i)
    ensures k + ws[k] <= ws[0]
  {
    if k > 0 {
      Falls(ws, k - 1);
      assert DropsAfter(ws, k - 1);
    }
  }

  lemma {:induction false} WeightAtStart(all: set<Id>, origin: Id)
    ensures Weight(all, [Message(origin, {})]) == Power(|all| + 1, |all|)
  {
    assert [Message(origin, {})][1..] == [];
    assert all - {} == all;
  }

  /** Among N miners no run is longer than (N + 1) to the N deliveries. */
  lemma {:induction false} FloodingEnds(links: Links, origin: Id, ns: seq<Gossip>, mvs: seq<Move>)
    requires Joined(links) && origin in links && IsRun(links, origin, ns, mvs)
    ensures |mvs| <= Power(|links.Keys| + 1, |links.Keys|)
  {
    var ws := seq(|ns|, i requires 0 <= i < |ns| => Weight(links.Keys, ns[i].wire));
    forall i: nat
      ensures DropsAfter(ws, i)
    {
      if i < |mvs| {
        MoveAtWeighsLess(links, ns, mvs, i);
      }
    }
    Falls(ws, |mvs|);
    WeightAtStart(links.Keys, origin);
  }

  lemma {:induction false} CanList(s: set<Id>) returns (ids: seq<Id>)
    ensures Lists(ids, s)
  {
    if s == {} {
      ids := [];
    } else {
      var x :| x in s;
      var rest := CanList(s - {x});
      ids := rest + [x];
    }
  }

  /** A run that cannot go on has delivered every message. */
  lemma {:induction false} StuckIsSilent(links: Links, origin: Id, ns: seq<Gossip>, mvs: seq<Move>)
    requires Joined(links) && origin in links && IsRun(links, origin, ns, mvs)
    requires forall mv :: !Enabled(links, ns[|mvs|], mv)
    ensures ns[|mvs|].wire == []
  {
    var n := ns[|mvs|];
    RunKeepsCovered(links, origin, ns, mvs, |mvs|);
    if n.wire != [] {
      assert MessageOk(links, n, n.wire[0]);
      var ids := CanList(links[n.wire[0].to] - n.wire[0].ignore);
      assert Enabled(links, n, Move(0, ids));
    }
  }
}
