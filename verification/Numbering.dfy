/** Both results on ids together: on a timely network, n nodes that each join once at id 1 end up on the
    mesh, numbered 1 to n. */
module Numbering {
  import opened Bytes
  import opened Packets
  import opened Model
  import opened Operations
  import opened Joining
  import I = IdProtocol
  import N = Network
  import T = Timed
  import K = TimedIds

  /** The same nodes, seen by the timing argument and by the protocol that never abandons an id. */
  datatype World = World(timed: T.TimedNet, net: N.Net)

  ghost predicate Sound(w: World, d: nat) {
    w.timed.nodes == w.net.nodes && T.TimedInv(w.timed, d) && N.NetInv(w.net)
  }

  /** At most 255 fresh nodes with distinct unique ids, and nothing sent. */
  ghost predicate Fresh(w: World) { w.timed.nodes == w.net.nodes && T.Fresh(w.timed) && N.Fresh(w.net) }

  lemma FreshIsSound(w: World, d: nat)
    requires Fresh(w) && K.Prompt(d)
    ensures Sound(w, d)
  {
    hide Inv;
    T.FreshIsSound(w.timed, d);
    N.FreshIsSound(w.net);
  }

  /** The actions of a timed run, without the passing of time. */
  function Untimed(events: seq<T.Event>): seq<N.Event> {
    if events == [] then []
    else match events[0]
         case Do(i, a) => [N.Event(i, a)] + Untimed(events[1..])
         case Pass(_) => Untimed(events[1..])
  }

  /** The run keeps the rules of both networks: packets about ids arrive at once, nothing arrives that
      was not sent, and nodes join at id 1. */
  ghost predicate Orderly(w: World, events: seq<T.Event>, d: nat)
    requires Sound(w, d)
  {
    T.PossibleRun(w.timed, events, d) && N.Possible(w.net, Untimed(events))
  }

  /** Both networks have the same nodes throughout. */
  lemma {:induction false} SameNodes(w: World, events: seq<T.Event>, d: nat)
    requires Sound(w, d) && Orderly(w, events, d)
    ensures T.After(w.timed, events, d).nodes == N.After(w.net, Untimed(events)).nodes
    decreases |events|
  {
    hide Inv, Act, T.TimedInv, N.NetInv, T.Broadcasts, N.Said, Allowed;
    if events != [] {
      FirstEvent(w, events, d);
      SameNodes(Next(w, events[0], d), events[1..], d);
    }
  }

  /** What one event makes of both networks. */
  ghost function Next(w: World, e: T.Event, d: nat): (r: World)
    requires Sound(w, d) && T.Possible(w.timed, e, d) && (e.Do? ==> N.MayAct(w.net, e.node, e.action))
    ensures Sound(r, d) && |r.timed.nodes| == |w.timed.nodes|
  {
    hide Inv, Act, T.TimedInv, N.NetInv, T.Broadcasts, N.Said, Allowed;
    if e.Do? then N.NetStepKeepsInv(w.net, e.node, e.action);
      World(T.Happen(w.timed, e, d), N.NetStep(w.net, e.node, e.action))
    else World(T.Happen(w.timed, e, d), w.net)
  }

  lemma FirstEvent(w: World, events: seq<T.Event>, d: nat)
    requires Sound(w, d) && Orderly(w, events, d) && events != []
    ensures var e := events[0];
            T.Possible(w.timed, e, d) && (e.Do? ==> N.MayAct(w.net, e.node, e.action)) &&
            var r := Next(w, e, d);
            Orderly(r, events[1..], d) && T.After(w.timed, events, d) == T.After(r.timed, events[1..], d) &&
            N.After(w.net, Untimed(events)) == N.After(r.net, Untimed(events[1..]))
  {
    hide Inv, Act, T.TimedInv, N.NetInv, T.Broadcasts, N.Said, Allowed;
    match events[0] {
      case Do(i, a) =>
        var rest := Untimed(events[1..]);
        assert Untimed(events)[0] == N.Event(i, a) && Untimed(events)[1..] == rest;
      case Pass(_) =>
    }
  }

  ghost function After(w: World, events: seq<T.Event>, d: nat): (r: World)
    requires Sound(w, d) && Orderly(w, events, d)
    ensures Sound(r, d) && |r.timed.nodes| == |w.timed.nodes|
  {
    hide Inv, T.TimedInv, N.NetInv, T.After, N.After, T.PossibleRun, N.Possible, Untimed;
    SameNodes(w, events, d);
    World(T.After(w.timed, events, d), N.After(w.net, Untimed(events)))
  }

  // ---- nobody joins for ever ----

  /** The time that passes. */
  function Duration(events: seq<T.Event>): nat {
    if events == [] then 0 else (if events[0].Pass? then events[0].ms else 0) + Duration(events[1..])
  }

  /** The longest a node can be joining under one id. */
  function Spell(d: nat): nat { JOIN_ACCEPT_DELAY + d }

  /** A full spell for each id given up, and the time under the present one: at least as long as the
      node has been joining. */
  function Credit(w: World, i: nat, d: nat): int
    requires T.Aligned(w.timed) && i < |w.timed.nodes|
  {
    (w.timed.nodes[i].nodeId - 1) * Spell(d) + Elapsed(w.timed.clocks[i], w.timed.nodes[i].joinFirstTx)
  }

  lemma AgeIsBounded(w: World, i: nat, d: nat)
    requires Sound(w, d) && i < |w.timed.nodes| && w.timed.nodes[i].state == Joining
    ensures Elapsed(w.timed.clocks[i], w.timed.nodes[i].joinFirstTx) <= Spell(d)
  {
    hide Inv, T.PassStep, I.ProtoInv, K.PairOk;
    assert K.Timely(T.SkyOf(w.timed).stations[i], d);
  }

  /** While a node is joining, its credit keeps up with the clock. */
  lemma CreditKeepsUp(w: World, e: T.Event, d: nat, i: nat)
    requires Sound(w, d) && T.Possible(w.timed, e, d) && (e.Do? ==> N.MayAct(w.net, e.node, e.action))
    requires i < |w.timed.nodes| && w.timed.nodes[i].state == Joining
    ensures var r := Next(w, e, d);
            r.timed.nodes[i].state == Joining ==> Credit(r, i, d) >= Credit(w, i, d) + if e.Pass? then e.ms else 0
  {
    hide Inv, Act, K.SkyInv, I.ProtoInv, T.Broadcasts, N.Said, Allowed;
    AgeIsBounded(w, i, d);
    match e {
      case Do(j, a) =>
        if j == i { OwnActionKeepsUp(w, i, a, d); }
      case Pass(ms) =>
        AgeIsShort(w, i, ms, d);
        ElapsedAdvances(w.timed.clocks[i], w.timed.nodes[i].joinFirstTx, ms);
    }
  }

  lemma AgeIsShort(w: World, i: nat, ms: nat, d: nat)
    requires Sound(w, d) && T.MayPass(w.timed, ms, d) && i < |w.timed.nodes| && w.timed.nodes[i].state == Joining
    ensures Elapsed(w.timed.clocks[i], w.timed.nodes[i].joinFirstTx) + ms < CLOCK_PERIOD
  {
    hide Inv, I.ProtoInv, K.PairOk;
    AgeIsBounded(w, i, d);
  }

  lemma OwnActionKeepsUp(w: World, i: nat, a: Action, d: nat)
    requires Sound(w, d) && T.MayAct(w.timed, i, a) && N.MayAct(w.net, i, a) && w.timed.nodes[i].state == Joining
    ensures var n, r := w.timed.nodes[i], Act(w.timed.nodes[i], a);
            r.state == Joining ==>
              (r.nodeId - 1) * Spell(d) + Elapsed(w.timed.clocks[i], r.joinFirstTx) >= Credit(w, i, d)
  {
    hide Inv, Act, K.SkyInv, I.ProtoInv;
    var n, r := w.timed.nodes[i], Act(w.timed.nodes[i], a);
    var clock := w.timed.clocks[i];
    AgeIsBounded(w, i, d);
    if a.DoUpdate? {
      T.ActIsMove(n, a, clock, w.timed.idle[i]);
      N.IdsNeverDecrease(w.net, i, a);
      if Evicted(n, a.env.rx) { NextSpell(n.nodeId, Spell(d)); }
    } else {
      T.CallKeepsStation(n, a, clock, w.timed.idle[i]);
    }
  }

  lemma NextSpell(id: nat, spell: nat)
    ensures id * spell == (id - 1) * spell + spell
  {
  }

  /** A node that has started to join never goes back, nor does one on the mesh. */
  lemma StateGoesForward(w: World, e: T.Event, d: nat, i: nat)
    requires Sound(w, d) && T.Possible(w.timed, e, d) && (e.Do? ==> N.MayAct(w.net, e.node, e.action))
    requires i < |w.timed.nodes| && w.timed.nodes[i].state != NotJoined
    ensures var s, r := w.timed.nodes[i].state, Next(w, e, d).timed.nodes[i].state;
            r != NotJoined && (OnMesh(s) ==> OnMesh(r))
  {
    hide Inv, Act, K.SkyInv, I.ProtoInv, T.Broadcasts, N.Said, Allowed;
  }

  lemma {:induction false} MembersStay(w: World, events: seq<T.Event>, d: nat, i: nat)
    requires Sound(w, d) && Orderly(w, events, d) && i < |w.timed.nodes| && OnMesh(w.timed.nodes[i].state)
    ensures OnMesh(After(w, events, d).timed.nodes[i].state)
    decreases |events|
  {
    hide Inv, Sound, Orderly, Next, T.Possible, N.MayAct;
    if events != [] {
      FirstEvent(w, events, d);
      StateGoesForward(w, events[0], d, i);
      MembersStay(Next(w, events[0], d), events[1..], d, i);
    }
  }

  lemma {:induction false} CreditCoversRun(w: World, events: seq<T.Event>, d: nat, i: nat)
    requires Sound(w, d) && Orderly(w, events, d) && i < |w.timed.nodes| && w.timed.nodes[i].state == Joining
    ensures var r := After(w, events, d);
            OnMesh(r.timed.nodes[i].state) ||
            (r.timed.nodes[i].state == Joining && Credit(r, i, d) >= Credit(w, i, d) + Duration(events))
    decreases |events|
  {
    hide Inv, Sound, Orderly, Next, T.Possible, N.MayAct;
    if events != [] {
      var e := events[0];
      FirstEvent(w, events, d);
      var r := Next(w, e, d);
      StateGoesForward(w, e, d, i);
      CreditKeepsUp(w, e, d, i);
      if r.timed.nodes[i].state == Joining {
        CreditCoversRun(r, events[1..], d, i);
      } else {
        MembersStay(r, events[1..], d, i);
      }
    }
  }

  /** The ids of nodes that have started to join are 1 to n at most. */
  lemma IdInRange(w: World, i: nat, d: nat)
    requires Sound(w, d) && i < |w.timed.nodes| && w.timed.nodes[i].state != NotJoined
    ensures 1 <= w.timed.nodes[i].nodeId <= |w.timed.nodes|
  {
    hide Inv, T.TimedInv, N.NetInv;
    var k := N.UsedIds(w.net);
    assert N.InUse(w.net, w.net.nodes[i].nodeId);
  }

  /** Everyone gets there: a node that has started to join is on the mesh after any orderly run that takes
      longer than the accept delay and one update period for each node of the network. */
  lemma JoinerGetsThere(w: World, events: seq<T.Event>, d: nat, i: nat)
    requires Sound(w, d) && Orderly(w, events, d) && i < |w.timed.nodes| && w.timed.nodes[i].state != NotJoined
    requires Duration(events) > |w.timed.nodes| * Spell(d)
    ensures OnMesh(After(w, events, d).timed.nodes[i].state)
  {
    hide Inv, Sound, Orderly, After, Duration, Spell;
    var r := After(w, events, d);
    if OnMesh(w.timed.nodes[i].state) {
      MembersStay(w, events, d, i);
    } else {
      CreditCoversRun(w, events, d, i);
      IdInRange(w, i, d);
      CreditIsNat(w, i, d);
      if r.timed.nodes[i].state == Joining {
        SoundIsAligned(r, d);
        AgeIsBounded(r, i, d);
        IdInRange(r, i, d);
        CreditBound(r.timed.nodes[i].nodeId, |r.timed.nodes|, Spell(d));
      }
    }
  }

  lemma CreditIsNat(w: World, i: nat, d: nat)
    requires Sound(w, d) && i < |w.timed.nodes| && w.timed.nodes[i].nodeId >= 1
    ensures T.Aligned(w.timed) && Credit(w, i, d) >= 0
  {
    hide Inv, K.SkyInv, N.NetInv;
    assert (w.timed.nodes[i].nodeId - 1) * Spell(d) >= 0;
  }

  lemma SoundIsAligned(w: World, d: nat)
    requires Sound(w, d)
    ensures T.Aligned(w.timed)
  {
  }

  lemma CreditBound(id: nat, n: nat, spell: nat)
    requires 1 <= id <= n
    ensures (id - 1) * spell + spell <= n * spell
  {
    assert (id - 1) * spell + spell == id * spell;
    assert (n - id) * spell >= 0;
  }

  // ---- the mesh is numbered ----

  predicate AllStarted(nodes: seq<Node>) { forall i | 0 <= i < |nodes| :: nodes[i].state != NotJoined }

  predicate AllOnMesh(nodes: seq<Node>) { forall i | 0 <= i < |nodes| :: OnMesh(nodes[i].state) }

  predicate HasId(nodes: seq<Node>, id: int) { exists i | 0 <= i < |nodes| :: nodes[i].nodeId == id }

  /** The ids are 1 to n, each held once. */
  ghost predicate Numbered(nodes: seq<Node>) {
    (forall i, j | 0 <= i < j < |nodes| :: nodes[i].nodeId != nodes[j].nodeId) &&
    forall id :: HasId(nodes, id) <==> 1 <= id <= |nodes|
  }

  lemma AllOnMeshIsNumbered(w: World, d: nat)
    requires Sound(w, d) && AllOnMesh(w.timed.nodes)
    ensures Numbered(w.timed.nodes)
  {
    hide Inv, N.NetInv, K.SkyInv;
    var nodes := w.timed.nodes;
    forall i, j | 0 <= i < j < |nodes| ensures nodes[i].nodeId != nodes[j].nodeId {
      K.MembersDiffer(T.SkyOf(w.timed), i, j, d);
    }
    var k := N.UsedIds(w.net);
    forall id ensures HasId(nodes, id) <==> N.InUse(w.net, id) {
      if HasId(nodes, id) {
        var i :| 0 <= i < |nodes| && nodes[i].nodeId == id;
        assert w.net.nodes[i].state != NotJoined;
      }
    }
    EveryoneCounts(w.net, k);
  }

  /** n different ids from 1 to k need k to be n at least. */
  lemma EveryoneCounts(net: N.Net, k: nat)
    requires forall i, j | 0 <= i < j < |net.nodes| :: net.nodes[i].nodeId != net.nodes[j].nodeId
    requires AllOnMesh(net.nodes) && forall id :: N.InUse(net, id) <==> 1 <= id <= k
    ensures |net.nodes| <= k
  {
    var ms := N.Abstract(net).members;
    forall w | 0 <= w < |ms| ensures 1 <= ms[w].nodeId <= k {
      assert net.nodes[w].state != NotJoined;
      assert N.InUse(net, net.nodes[w].nodeId);
    }
    I.DistinctIdsBound(ms, I.Indices(|ms|), k);
  }

  /** The mesh forms: when n fresh nodes, at most 255, have all started to join at id 1, in any order and at
      any times, then after any further orderly run of more than n * (5000 + d) milliseconds all of them are
      on the mesh, and their ids are exactly 1 to n. */
  lemma MeshIsNumbered(w: World, early: seq<T.Event>, late: seq<T.Event>, d: nat)
    requires Fresh(w) && K.Prompt(d)
    requires (FreshIsSound(w, d); Orderly(w, early, d) && AllStarted(After(w, early, d).timed.nodes))
    requires Orderly(After(w, early, d), late, d) && Duration(late) > |w.timed.nodes| * Spell(d)
    ensures var nodes := After(After(w, early, d), late, d).timed.nodes;
            AllOnMesh(nodes) && Numbered(nodes)
  {
    hide Inv, Sound, Fresh, Orderly, After, Duration, Numbered;
    FreshIsSound(w, d);
    var joined := After(w, early, d);
    var r := After(joined, late, d);
    forall i | 0 <= i < |r.timed.nodes| ensures OnMesh(r.timed.nodes[i].state) { JoinerGetsThere(joined, late, d, i); }
    AllOnMeshIsNumbered(r, d);
  }
}
