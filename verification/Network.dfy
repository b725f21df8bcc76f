/** Id assignment among any number of nodes, over a network that loses, delays, duplicates and reorders
    packets: no id is ever abandoned, and the ids in use are 1 to K without a gap. */
module Network {
  import opened Bytes
  import opened Packets
  import opened Model
  import opened Operations
  import opened Joining
  import opened IdProtocol

  /** The nodes, and every packet ever sent, hop count apart. Any packet sent may reach any node at any
      later time, any number of times, or never. */
  datatype Net = Net(nodes: seq<Node>, sent: set<Packet>)

  function Heard(rx: Rx): set<Packet> { if rx.Received? then {SansHop(rx.packet)} else {} }

  // ---- what one action means for the network ----

  /** How a node's claims move: by joining at `a.id`, by an eviction, or not at all. */
  ghost predicate Moves(n: Node, a: Action, r: Node) {
    r.uniqueId == n.uniqueId && (r.state == NotJoined <==> n.state == NotJoined && !a.DoJoin?) &&
    (n.state == NotJoined ==>
       if a.DoJoin? then r.nodeId == a.id && r.state == Joining && r.history.claims == n.history.claims + {a.id}
       else r.history.claims == n.history.claims) &&
    (n.state == Joining ==> r.nodeId == (if a.DoUpdate? && Evicted(n, a.env.rx) then NextId(n.nodeId) else n.nodeId)) &&
    (n.state == Joining ==> r.history.claims == n.history.claims + {r.nodeId}) &&
    (OnMesh(n.state) ==> OnMesh(r.state) && r.nodeId == n.nodeId && r.history.claims == n.history.claims) &&
    r.history.heard == n.history.heard + (if a.DoUpdate? then Heard(a.env.rx) else {}) &&
    GenuineAir(Id(r), r.history.air)
  }

  lemma ReceivingMoves(n: Node, env: Env)
    requires Inv(n)
    ensures HandleRx(n, env).history.heard == n.history.heard + Heard(env.rx)
    ensures n.state != Joining ==> HandleRx(n, env).history.claims == n.history.claims
  {
    hide Inv, SendConflict, Serve, CacheForRepeat;
    if env.rx.Received? {
      var n1 := Receive(n, env.rx.packet, env.rxTime);
      var n2 := Regard(n1, env.rxTime);
      assert n2.history.heard == n1.history.heard;
      assert n.state != Joining ==> n2.history == n1.history;
    }
  }

  lemma UpdateMoves(n: Node, env: Env)
    requires Inv(n)
    ensures Update(n, env).history.heard == n.history.heard + Heard(env.rx)
    ensures n.state != Joining ==> Update(n, env).history.claims == n.history.claims
  {
    hide Inv, HandleRx, UpdateRepeaters, UpdatePing, CheckTimeouts;
    ReceivingMoves(n, env);
    var n1 := HandleRx(n, env);
    RepeatersKeepJoin(UpdateTimers(n1, env), env);
    TimersMove(n1, env);
  }

  lemma TimersMove(n: Node, env: Env)
    requires Inv(n)
    ensures UpdateTimers(n, env).history.heard == n.history.heard && UpdateTimers(n, env).history.claims == n.history.claims
  {
    hide Inv, UpdatePing, CheckTimeouts;
  }

  lemma ActMoves(n: Node, a: Action)
    requires Inv(n) && Allowed(n, a)
    ensures Moves(n, a, Act(n, a))
  {
    hide Inv, Update, GenuineAir;
    AirIsGenuine(Act(n, a));
    if n.state == Joining { ClaimsItsId(n); }
    if a.DoUpdate? {
      UpdateMoves(Begin(n), a.env);
      if n.state == Joining { UpdateWhileJoining(Begin(n), a.env); }
    } else {
      CallMoves(n, a);
    }
  }

  /** A client's call other than an update moves no claim, except a join. */
  lemma CallMoves(n: Node, a: Action)
    requires Inv(n) && Allowed(n, a) && !a.DoUpdate?
    ensures Act(n, a).history.heard == n.history.heard
    ensures Act(n, a).history.claims == n.history.claims + if a.DoJoin? then {a.id} else {}
    ensures a.DoJoin? ==> Act(n, a).nodeId == a.id && Act(n, a).state == Joining
  {
    hide Inv;
  }

  lemma AirIsGenuine(n: Node)
    requires Inv(n)
    ensures GenuineAir(Id(n), n.history.air)
  {
  }

  // ---- the network refines the id protocol ----

  function View(n: Node): Member {
    Member(n.uniqueId, n.state != NotJoined, OnMesh(n.state), n.nodeId, n.history.claims)
  }

  function Abstract(net: Net): Proto {
    Proto(seq(|net.nodes|, i requires 0 <= i < |net.nodes| => View(net.nodes[i])), net.sent)
  }

  /** Each node is sound and has heard only what was sent. */
  ghost predicate NetInv(net: Net) {
    (forall i {:trigger net.nodes[i]} | 0 <= i < |net.nodes| :: Inv(net.nodes[i]) && net.nodes[i].history.heard <= net.sent) &&
    ProtoInv(Abstract(net))
  }

  /** Node `i` may act: it joins at id 1 and only once, and receives only what was sent. */
  ghost predicate MayAct(net: Net, i: nat, a: Action) {
    i < |net.nodes| && Allowed(net.nodes[i], a) && (a.DoJoin? ==> a.id == 1) &&
    (a.DoUpdate? ==> Heard(a.env.rx) <= net.sent)
  }

  function Said(air: seq<Tx>): set<Packet> { set i | 0 <= i < |air| :: SansHop(air[i].packet) }

  function NetStep(net: Net, i: nat, a: Action): Net
    requires NetInv(net) && MayAct(net, i, a)
  {
    var r := Act(net.nodes[i], a);
    Net(net.nodes[i := r], net.sent + Said(r.history.air))
  }

  function StepOf(n: Node, a: Action): Step {
    if a.DoJoin? then Enter
    else if n.state == Joining && a.DoUpdate? && Evicted(n, a.env.rx) then Move(SansHop(a.env.rx.packet))
    else Stay
  }

  lemma ActIsMemberStep(n: Node, a: Action, r: Node, sent: set<Packet>)
    requires Allowed(n, a) && Moves(n, a, r) && (a.DoJoin? ==> a.id == 1)
    requires a.DoUpdate? ==> Heard(a.env.rx) <= sent
    requires n.state == Joining ==> n.history.claims == n.history.claims + {n.nodeId}
    ensures MemberStep(View(n), StepOf(n, a), View(r), sent)
  {
    if a.DoUpdate? && a.env.rx.Received? { WithHopKeeps(a.env.rx.packet, 0); }
  }

  /** What a node says about ids it has heard or may vouch for. */
  lemma SaidIsVouched(r: Node, sent: set<Packet>, q: Packet)
    requires GenuineAir(Id(r), r.history.air) && r.history.heard <= sent
    requires q in Said(r.history.air) && q !in sent && AboutIds(q)
    ensures Vouched(View(r), q)
  {
    var i :| 0 <= i < |r.history.air| && q == SansHop(r.history.air[i].packet);
    WithHopKeeps(r.history.air[i].packet, 0);
    assert Genuine(Id(r), r.history.air[i].packet);
  }

  lemma NetStepRefines(net: Net, i: nat, a: Action)
    requires NetInv(net) && MayAct(net, i, a)
    ensures ProtoStep(Abstract(net), i, StepOf(net.nodes[i], a), Abstract(NetStep(net, i, a)))
    ensures NetStep(net, i, a).nodes[i].history.heard <= net.sent
  {
    hide Inv, ProtoInv, Act, Genuine;
    var n, r := net.nodes[i], Act(net.nodes[i], a);
    ActMoves(n, a);
    if n.state == Joining { ClaimsItsId(n); }
    ActIsMemberStep(n, a, r, net.sent);
    var p, q := Abstract(net), Abstract(NetStep(net, i, a));
    forall x | x in q.sent && x !in p.sent && AboutIds(x) ensures Vouched(q.members[i], x) {
      SaidIsVouched(r, net.sent, x);
    }
    assert q.members == p.members[i := View(r)];
  }

  lemma NetStepKeepsInv(net: Net, i: nat, a: Action)
    requires NetInv(net) && MayAct(net, i, a)
    ensures NetInv(NetStep(net, i, a))
  {
    hide Inv, ProtoInv, Act;
    NetStepRefines(net, i, a);
    StepKeepsInv(Abstract(net), i, StepOf(net.nodes[i], a), Abstract(NetStep(net, i, a)));
  }

  // ---- runs ----

  /** `n` fresh nodes with distinct unique ids, at most 255, and nothing sent. */
  ghost predicate Fresh(net: Net) {
    |net.nodes| <= MAX_MEMBERS && net.sent == {} &&
    (forall i | 0 <= i < |net.nodes| :: Inv(net.nodes[i]) && net.nodes[i].state == NotJoined &&
       net.nodes[i].history.heard == {} && net.nodes[i].history.claims == {}) &&
    forall i, j | 0 <= i < j < |net.nodes| :: net.nodes[i].uniqueId != net.nodes[j].uniqueId
  }

  lemma FreshIsSound(net: Net)
    requires Fresh(net)
    ensures NetInv(net)
  {
    hide Inv;
  }

  datatype Event = Event(node: nat, action: Action)

  ghost predicate Possible(net: Net, events: seq<Event>)
    requires NetInv(net)
    decreases |events|
  {
    events == [] ||
    (MayAct(net, events[0].node, events[0].action) &&
     (NetStepKeepsInv(net, events[0].node, events[0].action);
      Possible(NetStep(net, events[0].node, events[0].action), events[1..])))
  }

  ghost function After(net: Net, events: seq<Event>): (r: Net)
    requires NetInv(net) && Possible(net, events)
    ensures NetInv(r) && |r.nodes| == |net.nodes|
    decreases |events|
  {
    if events == [] then net
    else
      NetStepKeepsInv(net, events[0].node, events[0].action);
      After(NetStep(net, events[0].node, events[0].action), events[1..])
  }

  // ---- main results ----

  /** A node that has joined, or is joining, under this id. */
  predicate InUse(net: Net, id: int) {
    exists w {:trigger net.nodes[w]} | 0 <= w < |net.nodes| :: net.nodes[w].state != NotJoined && net.nodes[w].nodeId == id
  }

  lemma InUseIsHeld(net: Net, id: int)
    ensures InUse(net, id) <==> HeldAmong(Abstract(net), Indices(|net.nodes|), id)
  {
    var p, all := Abstract(net), Indices(|net.nodes|);
    if InUse(net, id) {
      var w :| 0 <= w < |net.nodes| && net.nodes[w].state != NotJoined && net.nodes[w].nodeId == id;
      assert w in all && Holds(p, w, id);
    }
    if HeldAmong(p, all, id) {
      var w :| w in all && Holds(p, w, id);
      assert net.nodes[w].nodeId == id;
    }
  }

  /** The ids in use are 1 to K, and every id ever claimed is among them. */
  lemma UsedIds(net: Net) returns (k: nat)
    requires NetInv(net)
    ensures k <= |net.nodes| && (forall id :: InUse(net, id) <==> 1 <= id <= k)
    ensures forall i, id | 0 <= i < |net.nodes| && id in net.nodes[i].history.claims :: InUse(net, id)
  {
    hide Inv, ProtoInv;
    var p := Abstract(net);
    NoIdIsAbandoned(p);
    k := TopId(p.members, |p.members|);
    forall id ensures InUse(net, id) <==> 1 <= id <= k { InUseIsHeld(net, id); }
    forall i, id | 0 <= i < |net.nodes| && id in net.nodes[i].history.claims ensures InUse(net, id) {
      assert id in p.members[i].claims;
      InUseIsHeld(net, id);
    }
  }

  /** In every run of at most 255 fresh nodes, each joining once at id 1, over a network that loses,
      delays, duplicates and reorders: every id any node ever claimed is held by some node, so the ids
      in use are exactly 1 to K for some K no greater than the number of nodes. */
  lemma IdsInUseHaveNoGap(net: Net, events: seq<Event>) returns (k: nat)
    requires Fresh(net)
    requires (FreshIsSound(net); Possible(net, events))
    ensures var r := After(net, events);
            k <= |r.nodes| && (forall id :: InUse(r, id) <==> 1 <= id <= k)
    ensures var r := After(net, events);
            forall i, id | 0 <= i < |r.nodes| && id in r.nodes[i].history.claims :: InUse(r, id)
  {
    hide Inv, ProtoInv, NetInv, After, Fresh;
    FreshIsSound(net);
    k := UsedIds(After(net, events));
  }

  /** Ids never decrease: a node that is moved on goes to the next id, without wrapping around, and to
      one no greater than the number of nodes; every other node that has an id keeps it. */
  lemma IdsNeverDecrease(net: Net, i: nat, a: Action)
    requires NetInv(net) && MayAct(net, i, a) && net.nodes[i].state != NotJoined
    ensures NetStep(net, i, a).nodes[i].nodeId ==
            net.nodes[i].nodeId + if StepOf(net.nodes[i], a).Move? then 1 else 0
    ensures StepOf(net.nodes[i], a).Move? ==> NetStep(net, i, a).nodes[i].nodeId <= |net.nodes|
  {
    hide Inv, Act, WellClaimed, Truthful, Kept;
    NetStepRefines(net, i, a);
    var s := StepOf(net.nodes[i], a);
    if s.Move? { MoveDoesNotWrap(Abstract(net), i, s.mover); }
    assert Abstract(net).members[i].nodeId == net.nodes[i].nodeId;
    assert Abstract(NetStep(net, i, a)).members[i].nodeId == NetStep(net, i, a).nodes[i].nodeId;
  }

  /** The number of times a node was moved off an id in a run. */
  ghost function Evictions(net: Net, events: seq<Event>): nat
    requires NetInv(net) && Possible(net, events)
    decreases |events|
  {
    if events == [] then 0
    else
      NetStepKeepsInv(net, events[0].node, events[0].action);
      (if StepOf(net.nodes[events[0].node], events[0].action).Move? then 1 else 0) +
        Evictions(NetStep(net, events[0].node, events[0].action), events[1..])
  }

  lemma {:induction false} EvictionsAreMoves(net: Net, events: seq<Event>)
    requires NetInv(net) && Possible(net, events)
    ensures Moved(Abstract(After(net, events)).members, |net.nodes|) ==
            Moved(Abstract(net).members, |net.nodes|) + Evictions(net, events)
    decreases |events|
  {
    hide Inv, ProtoInv, Act;
    if events != [] {
      var i, a := events[0].node, events[0].action;
      NetStepKeepsInv(net, i, a);
      NetStepRefines(net, i, a);
      StepMoved(Abstract(net), i, StepOf(net.nodes[i], a), Abstract(NetStep(net, i, a)), |net.nodes|);
      EvictionsAreMoves(NetStep(net, i, a), events[1..]);
    }
  }

  lemma {:induction false} FreshMovedNothing(net: Net, n: nat)
    requires Fresh(net) && n <= |net.nodes|
    ensures Moved(Abstract(net).members, n) == 0
  {
    hide Inv;
    if n > 0 { FreshMovedNothing(net, n - 1); }
  }

  predicate AllJoining(net: Net) { forall i | 0 <= i < |net.nodes| :: net.nodes[i].state == Joining }

  /** 1 for the node with the highest unique id. */
  function RankOf(net: Net, i: nat): nat
    requires i < |net.nodes|
  {
    Rank(Abstract(net).members, i)
  }

  /** In every run, whether nodes reach the mesh or not, at most n(n-1)/2 moves are made. */
  lemma EvictionsAreFew(net: Net, events: seq<Event>)
    requires Fresh(net)
    requires (FreshIsSound(net); Possible(net, events))
    ensures 2 * Evictions(net, events) <= |net.nodes| * (|net.nodes| - 1)
  {
    hide Inv, ProtoInv, After, Evictions, Fresh, Moved, Possible;
    FreshIsSound(net);
    EvictionsAreMoves(net, events);
    FreshMovedNothing(net, |net.nodes|);
    MovesBound(Abstract(After(net, events)));
  }

  /** In every run after which all n nodes are joining and none is on the mesh yet, no node's id exceeds
      its rank by descending unique id. Once no two nodes share an id, each node's id is exactly its rank. */
  lemma JoiningSettlesByRank(net: Net, events: seq<Event>)
    requires Fresh(net)
    requires (FreshIsSound(net); Possible(net, events) && AllJoining(After(net, events)))
    ensures forall i | 0 <= i < |net.nodes| :: After(net, events).nodes[i].nodeId <= RankOf(After(net, events), i)
    ensures (forall i, j | 0 <= i < j < |net.nodes| ::
               After(net, events).nodes[i].nodeId != After(net, events).nodes[j].nodeId) ==>
            forall i | 0 <= i < |net.nodes| :: After(net, events).nodes[i].nodeId == RankOf(After(net, events), i)
  {
    hide Inv, ProtoInv, After, Fresh, Rank, Possible;
    FreshIsSound(net);
    var r, p := After(net, events), Abstract(After(net, events));
    forall i | 0 <= i < |r.nodes| ensures r.nodes[i].nodeId <= RankOf(r, i) {
      assert p.members[i].started;
      IdAtMostRank(p, i);
    }
    if HeldOnce(p.members) {
      forall i | 0 <= i < |r.nodes| ensures r.nodes[i].nodeId == RankOf(r, i) { SettledIdIsRank(p, i); }
    }
  }
}
