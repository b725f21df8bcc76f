/** Unique ids on a timely network: when JOIN and CONFLICT_NAME packets reach every node at once, and a
    joining node is updated often enough, no two nodes on the mesh ever have the same id. */
module Timed {
  import opened Bytes
  import opened Packets
  import opened Registers
  import opened Model
  import opened Operations
  import opened Joining
  import T = TimedIds

  /** The nodes, their clocks (each started at an arbitrary time), the time since each was last updated,
      and the JOIN and CONFLICT_NAME packets not yet received by all. */
  datatype TimedNet = TimedNet(nodes: seq<Node>, clocks: seq<uint32>, idle: seq<nat>, due: set<T.Delivery>)

  function PhaseOf(s: State): T.Phase {
    if s == NotJoined then T.Outside else if s == Joining then T.Seeking else T.Member
  }

  function StationOf(n: Node, clock: uint32, idle: nat): T.Station {
    if n.state == Joining then
      T.Station(n.uniqueId, T.Seeking, n.nodeId, Elapsed(clock, n.joinFirstTx), Elapsed(clock, n.request.sentTime),
                idle)
    else T.Station(n.uniqueId, PhaseOf(n.state), if n.state == NotJoined then 0 else n.nodeId, 0, 0, 0)
  }

  predicate Aligned(net: TimedNet) { |net.clocks| == |net.nodes| == |net.idle| }

  function SkyOf(net: TimedNet): T.Sky
    requires Aligned(net)
  {
    T.Sky(seq(|net.nodes|, i requires 0 <= i < |net.nodes| => StationOf(net.nodes[i], net.clocks[i], net.idle[i])),
          net.due)
  }

  /** The retransmit delay is drawn once, at initialization, from 100 to 599. */
  predicate DelayInRange(n: Node) { MIN_JOIN_RETRANSMIT_DELAY <= n.joinRetransmitDelay < MAX_JOIN_RETRANSMIT_DELAY }

  ghost predicate TimedInv(net: TimedNet, d: nat) {
    Aligned(net) && T.SkyInv(SkyOf(net), d) &&
    forall i {:trigger net.nodes[i]} | 0 <= i < |net.nodes| :: Inv(net.nodes[i]) && DelayInRange(net.nodes[i])
  }

  // ---- steps ----

  /** What the other nodes are about to receive. */
  function Broadcasts(air: seq<Tx>, i: nat, n: nat): set<T.Delivery> {
    set k: nat, j: nat | k < |air| && j < n && j != i && AboutIds(air[k].packet) :: T.Delivery(air[k].packet, j)
  }

  function Got(a: Action): Option<Packet> {
    if a.DoUpdate? && a.env.rx.Received? then Some(a.env.rx.packet) else None
  }

  function Taken(a: Action, i: nat): set<T.Delivery> {
    if Got(a).Some? then {T.Delivery(Got(a).value, i)} else {}
  }

  /** The join phases of an update read the node's clock; an update may receive any packet. */
  predicate MayAct(net: TimedNet, i: nat, a: Action)
    requires Aligned(net)
  {
    i < |net.nodes| && Allowed(net.nodes[i], a) &&
    (a.DoUpdate? ==> a.env.rxTime == a.env.joinTime == net.clocks[i]) && (a.DoJoin? ==> a.now == net.clocks[i])
  }

  function ActStep(net: TimedNet, i: nat, a: Action): (r: TimedNet)
    requires Aligned(net) && MayAct(net, i, a) && Inv(net.nodes[i])
    ensures Aligned(r)
  {
    var n := Act(net.nodes[i], a);
    TimedNet(net.nodes[i := n], net.clocks, if a.DoUpdate? || a.DoJoin? then net.idle[i := 0] else net.idle,
             net.due - Taken(a, i) + Broadcasts(n.history.air, i, |net.nodes|))
  }

  /** Time may pass when no JOIN or CONFLICT_NAME packet is on its way and no joining node would go
      without an update for more than `d`. */
  predicate MayPass(net: TimedNet, ms: nat, d: nat)
    requires Aligned(net)
  {
    net.due == {} && forall i | 0 <= i < |net.nodes| :: net.nodes[i].state == Joining ==> net.idle[i] + ms <= d
  }

  function PassStep(net: TimedNet, ms: nat): (r: TimedNet)
    requires Aligned(net)
    ensures Aligned(r)
  {
    var n := |net.nodes|;
    net.(clocks := seq(n, i requires 0 <= i < n => Later(net.clocks[i], ms)),
         idle := seq(n, i requires 0 <= i < n => net.idle[i] + ms))
  }

  // ---- each step is one the timing argument knows ----

  function MoveOf(n: Node, a: Action): T.Move {
    if a.DoJoin? then T.TakeUp(a.id)
    else if n.state == Joining && a.DoUpdate? then
      if Evicted(n, a.env.rx) then T.TakeUp(NextId(n.nodeId))
      else if Accepts(n, a.env) then T.Accept
      else if Resends(n, a.env) then T.Resend
      else T.Rest
    else T.Rest
  }

  lemma SendsIsAnnounced(due: set<T.Delivery>, air: seq<Tx>, i: nat, n: nat, kind: byte, source: T.Station)
    requires Sends(air, kind, source.nodeId, source.uniqueId) && Broadcasts(air, i, n) <= due
    requires kind == PKT_JOIN || kind == PKT_CONFLICT_NAME
    ensures T.Announced(due, n, kind, source, i)
  {
    var k: nat :| k < |air| && IsAbout(air[k].packet, kind, source.nodeId, source.uniqueId);
    forall j: nat | j < n && j != i ensures T.Flying(due, kind, source, j) {
      assert T.Delivery(air[k].packet, j) in Broadcasts(air, i, n);
    }
  }

  /** An action of node `n` as the timing argument sees it: the station it becomes, and what it sends. */
  ghost predicate IsMove(n: Node, a: Action, r: Node, clock: uint32, idle: nat) {
    var m, v := StationOf(n, clock, idle), MoveOf(n, a);
    T.MayMove(m, v, Got(a)) && StationOf(r, clock, 0) == T.Moved(m, v) &&
    (v.TakeUp? || v.Resend? ==> Sends(r.history.air, PKT_JOIN, r.nodeId, r.uniqueId)) &&
    (T.Answers(m, Got(a)) ==> Sends(r.history.air, PKT_CONFLICT_NAME, n.nodeId, n.uniqueId))
  }

  lemma JoinIsMove(n: Node, a: Action, clock: uint32, idle: nat)
    requires Inv(n) && Allowed(n, a) && a.DoJoin? && a.now == clock
    ensures IsMove(n, a, Act(n, a), clock, idle)
  {
    hide Inv, StartJoin;
    var b := Begin(n);
    OwnHeader(b.(nodeId := a.id), PKT_JOIN);
    assert Act(n, a).history.air == [Tx(Originated, HeaderFor(b.(nodeId := a.id), PKT_JOIN))];
    assert Act(n, a).history.air[0] == Tx(Originated, HeaderFor(b.(nodeId := a.id), PKT_JOIN));
  }

  lemma SeekerIsMove(n: Node, a: Action, clock: uint32, idle: nat)
    requires Inv(n) && DelayInRange(n) && a.DoUpdate? && n.state == Joining
    requires a.env.rxTime == a.env.joinTime == clock
    ensures IsMove(n, a, Act(n, a), clock, idle)
  {
    hide Inv, Update;
    UpdateWhileJoining(Begin(n), a.env);
  }

  lemma OtherIsMove(n: Node, a: Action, clock: uint32, idle: nat)
    requires Inv(n) && a.DoUpdate? && n.state != Joining
    ensures IsMove(n, a, Act(n, a), clock, idle)
  {
    hide Inv, Update;
    if T.Answers(StationOf(n, clock, idle), Got(a)) { UpdateSendsConflict(Begin(n), a.env); }
  }

  lemma ActIsMove(n: Node, a: Action, clock: uint32, idle: nat)
    requires Inv(n) && Allowed(n, a) && DelayInRange(n) && (a.DoUpdate? || a.DoJoin?)
    requires a.DoUpdate? ==> a.env.rxTime == a.env.joinTime == clock
    requires a.DoJoin? ==> a.now == clock
    ensures IsMove(n, a, Act(n, a), clock, idle)
  {
    hide Inv, Act, IsMove;
    if a.DoJoin? { JoinIsMove(n, a, clock, idle); }
    else if n.state == Joining { SeekerIsMove(n, a, clock, idle); }
    else { OtherIsMove(n, a, clock, idle); }
  }

  lemma ActStepRefines(net: TimedNet, i: nat, a: Action, d: nat)
    requires TimedInv(net, d) && MayAct(net, i, a) && (a.DoUpdate? || a.DoJoin?)
    ensures T.StationStep(SkyOf(net), i, MoveOf(net.nodes[i], a), Got(a), SkyOf(ActStep(net, i, a)))
  {
    hide Inv, Act, T.SkyInv, T.MayMove, T.Announced, Broadcasts, Sends;
    var n, r := net.nodes[i], ActStep(net, i, a);
    var s, v, m := SkyOf(net), MoveOf(net.nodes[i], a), r.nodes[i];
    ActIsMove(n, a, net.clocks[i], net.idle[i]);
    assert SkyOf(r).stations == s.stations[i := T.Moved(s.stations[i], v)];
    if v.TakeUp? || v.Resend? {
      SendsIsAnnounced(r.due, m.history.air, i, |net.nodes|, PKT_JOIN, SkyOf(r).stations[i]);
    }
    if T.Answers(s.stations[i], Got(a)) {
      SendsIsAnnounced(r.due, m.history.air, i, |net.nodes|, PKT_CONFLICT_NAME, s.stations[i]);
    }
  }

  lemma ActStepKeepsInv(net: TimedNet, i: nat, a: Action, d: nat)
    requires TimedInv(net, d) && MayAct(net, i, a)
    ensures TimedInv(ActStep(net, i, a), d)
  {
    hide Inv, Act, T.SkyInv, T.StationStep, Broadcasts;
    var r := ActStep(net, i, a);
    if a.DoUpdate? || a.DoJoin? {
      ActStepRefines(net, i, a, d);
      T.StationStepKeepsInv(SkyOf(net), i, MoveOf(net.nodes[i], a), Got(a), SkyOf(r), d);
    } else {
      CallKeepsStation(net.nodes[i], a, net.clocks[i], net.idle[i]);
      assert SkyOf(r).stations == SkyOf(net).stations;
      T.MorePacketsKeepInv(SkyOf(net), SkyOf(r), d);
    }
  }

  /** No other call changes a node's place in the joining protocol. */
  lemma CallKeepsStation(n: Node, a: Action, clock: uint32, idle: nat)
    requires Inv(n) && Allowed(n, a) && !a.DoUpdate? && !a.DoJoin?
    ensures StationOf(Act(n, a), clock, idle) == StationOf(n, clock, idle)
  {
    hide Inv;
  }

  lemma PassStepKeepsInv(net: TimedNet, ms: nat, d: nat)
    requires TimedInv(net, d) && MayPass(net, ms, d)
    ensures TimedInv(PassStep(net, ms), d)
  {
    hide Inv, T.PairOk;
    var s, r := SkyOf(net), SkyOf(PassStep(net, ms));
    forall i | 0 <= i < |net.nodes| ensures r.stations[i] == T.Aged(s.stations[i], ms) {
      assert T.Timely(s.stations[i], d);
      if net.nodes[i].state == Joining {
        ElapsedAdvances(net.clocks[i], net.nodes[i].joinFirstTx, ms);
        ElapsedAdvances(net.clocks[i], net.nodes[i].request.sentTime, ms);
      }
    }
    T.TimeStepKeepsInv(s, ms, r, d);
  }

  // ---- runs ----

  datatype Event = Do(node: nat, action: Action) | Pass(ms: nat)

  ghost predicate Possible(net: TimedNet, e: Event, d: nat)
    requires TimedInv(net, d)
  {
    match e
    case Do(i, a) => MayAct(net, i, a)
    case Pass(ms) => MayPass(net, ms, d)
  }

  ghost function Happen(net: TimedNet, e: Event, d: nat): (r: TimedNet)
    requires TimedInv(net, d) && Possible(net, e, d)
    ensures TimedInv(r, d)
  {
    hide T.SkyInv, Inv, Act;
    match e
    case Do(i, a) => ActStepKeepsInv(net, i, a, d); ActStep(net, i, a)
    case Pass(ms) => PassStepKeepsInv(net, ms, d); PassStep(net, ms)
  }

  ghost predicate PossibleRun(net: TimedNet, events: seq<Event>, d: nat)
    requires TimedInv(net, d)
    decreases |events|
  {
    events == [] || (Possible(net, events[0], d) && PossibleRun(Happen(net, events[0], d), events[1..], d))
  }

  ghost function After(net: TimedNet, events: seq<Event>, d: nat): (r: TimedNet)
    requires TimedInv(net, d) && PossibleRun(net, events, d)
    ensures TimedInv(r, d)
    decreases |events|
  {
    if events == [] then net else After(Happen(net, events[0], d), events[1..], d)
  }

  /** Nodes that have not joined yet, with distinct unique ids, and no packet sent. */
  ghost predicate Fresh(net: TimedNet) {
    Aligned(net) && net.due == {} &&
    (forall i {:trigger net.nodes[i]} | 0 <= i < |net.nodes| ::
       Inv(net.nodes[i]) && DelayInRange(net.nodes[i]) && net.nodes[i].state == NotJoined) &&
    forall i, j | 0 <= i < |net.nodes| && 0 <= j < |net.nodes| && i != j ::
      net.nodes[i].uniqueId != net.nodes[j].uniqueId
  }

  lemma FreshIsSound(net: TimedNet, d: nat)
    requires Fresh(net) && T.Prompt(d)
    ensures TimedInv(net, d)
  {
    hide Inv;
  }

  /** Ids are unique: in every run of any number of fresh nodes, joining at any times and ids, in which
      every JOIN and CONFLICT_NAME packet reaches every other node at once and every joining node is
      updated at least every `d` milliseconds, 2 * (599 + d) <= 5000, no two nodes on the mesh have the
      same id. Packets of other types may be lost, delayed, forged or repeated at will. */
  lemma MembersNeverShareAnId(net: TimedNet, events: seq<Event>, d: nat, i: nat, j: nat)
    requires T.Prompt(d) && Fresh(net)
    requires (FreshIsSound(net, d); PossibleRun(net, events, d))
    requires i < j < |After(net, events, d).nodes|
    requires OnMesh(After(net, events, d).nodes[i].state) && OnMesh(After(net, events, d).nodes[j].state)
    ensures After(net, events, d).nodes[i].nodeId != After(net, events, d).nodes[j].nodeId
  {
    hide Inv, After, PossibleRun, T.SkyInv, Fresh;
    FreshIsSound(net, d);
    T.MembersDiffer(SkyOf(After(net, events, d)), i, j, d);
  }
}
