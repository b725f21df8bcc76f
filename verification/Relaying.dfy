/** Relaying, packet by packet: which received packets a node takes on, exactly, and that every one of them is sent
    on, one hop further, within two of its relay turns. */
module Relaying {
  import opened Bytes
  import opened Packets
  import opened Registers
  import opened Model
  import opened Operations
  import opened Joining
  import opened Traffic
  import F = Filter
  import R = Relay
  import Q = Responses

  // ---- which packets are taken on ----

  /** A request, or an outcome, addressed to this node. */
  predicate IsForMe(n: Node, p: Packet) {
    Kind(p) in {PKT_GET_NUM_REGISTERS, PKT_GET_REGISTER_NAME, PKT_SET_REGISTER_ACK} && Target(p) == n.nodeId
  }

  /** The answer of the node that this node is asking. */
  predicate IsMyAnswer(n: Node, p: Packet) {
    ((n.state == GettingNumRegisters && Kind(p) == PKT_NUM_REGISTERS) ||
     (n.state == GettingRegisterName && Kind(p) == PKT_REGISTER_NAME)) &&
    Sender(p) == n.request.targetNodeId && (n.request.targetUniqueId == 0 || UniqueId(p) == n.request.targetUniqueId)
  }

  /** A GET or SET for a register of this node: it carries the length of the name, and then the name. */
  predicate IsForMyRegister(n: Node, p: Packet) {
    (Kind(p) == PKT_GET_REGISTER || Kind(p) == PKT_SET_REGISTER) &&
    exists r | r in n.registers :: p[DATA_AT] == r.nameLen && p[NAME_AT..NAME_AT + r.nameLen] == r.data[..r.nameLen]
  }

  /** The packet is, but for its hop count, one of the last two taken on; an unused slot counts as a zero packet. */
  predicate IsRecent(accepted: seq<Packet>, p: Packet) {
    (exists i | 0 <= i < |accepted| && |accepted| - 2 <= i :: SansHop(accepted[i]) == SansHop(p)) ||
    (|accepted| < 2 && SansHop(p) == ZeroPacket())
  }

  /** The node takes the packet on: another's, none of its own business, with a hop to make, not one of the
      last two (a JOIN may be), and there is room. */
  predicate TakesOn(n: Node, rx: Rx) {
    OnMesh(n.state) && rx.Received? &&
    var p := rx.packet;
    Sender(p) != n.nodeId && !IsForMe(n, p) && !IsMyAnswer(n, p) && !IsForMyRegister(n, p) && Hop(p) < 6 &&
    |n.relay.accepted| < |n.relay.relayed| + 2 && (Kind(p) == PKT_JOIN || !IsRecent(n.relay.accepted, p))
  }

  lemma RecentMeaning(r: R.Ring, p: Packet)
    requires R.RingInv(r)
    ensures R.AlreadyRelayed(r, p) <==> Kind(p) != PKT_JOIN && IsRecent(r.accepted, p)
  {
    hide R.RingInv, IsRecent;
    if R.AlreadyRelayed(r, p) { RelayedIsRecent(r, p); }
    if Kind(p) != PKT_JOIN && IsRecent(r.accepted, p) { RecentIsRelayed(r, p); }
  }

  lemma RelayedIsRecent(r: R.Ring, p: Packet)
    requires R.RingInv(r) && R.AlreadyRelayed(r, p)
    ensures IsRecent(r.accepted, p)
  {
    hide R.RingInv;
    var n := |r.accepted|;
    SlotsAre(r);
    var k :| 0 <= k < 2 && SameSansHop(p, r.slots[k]);
    SameSansHopMeaning(p, r.slots[k]);
    if n < 2 && k >= n {
      assert SansHop(ZeroPacket()) == ZeroPacket();
    } else {
      var i := if (n - 1) % 2 == k then n - 1 else n - 2;
      assert SansHop(r.accepted[i]) == SansHop(p);
    }
  }

  lemma RecentIsRelayed(r: R.Ring, p: Packet)
    requires R.RingInv(r) && Kind(p) != PKT_JOIN && IsRecent(r.accepted, p)
    ensures R.AlreadyRelayed(r, p)
  {
    hide R.RingInv;
    var n := |r.accepted|;
    SlotsAre(r);
    var k := if i :| 0 <= i < n && n - 2 <= i && SansHop(r.accepted[i]) == SansHop(p) then i % 2 else 1;
    assert SansHop(ZeroPacket()) == ZeroPacket();
    SameSansHopMeaning(p, r.slots[k]);
    assert r.slots[k] in r.slots;
  }

  /** Each slot holds one of the last two packets, but for the hop count, or is unused. */
  lemma SlotsAre(r: R.Ring)
    requires R.RingInv(r)
    ensures |r.slots| == 2
    ensures forall k | 0 <= k < 2 && k >= |r.accepted| :: r.slots[k] == ZeroPacket()
    ensures |r.accepted| >= 1 ==> SansHop(r.slots[(|r.accepted| - 1) % 2]) == SansHop(r.accepted[|r.accepted| - 1])
    ensures |r.accepted| >= 2 ==> SansHop(r.slots[(|r.accepted| - 2) % 2]) == SansHop(r.accepted[|r.accepted| - 2])
  {
    hide R.Fifo, R.NoEcho;
  }

  lemma BusinessMeaning(n: Node)
    ensures NotForRelay(n) <==>
            (Sender(n.packet) == n.nodeId && UniqueId(n.packet) == n.uniqueId) || IsForMe(n, n.packet) ||
            IsMyAnswer(n, n.packet) || IsForMyRegister(n, n.packet)
  {
    var p := n.packet;
    forall r: Register
      ensures PacketHasRegister(p, r) <==>
              (Kind(p) == PKT_GET_REGISTER || Kind(p) == PKT_SET_REGISTER) &&
              p[DATA_AT] == r.nameLen && p[NAME_AT..NAME_AT + r.nameLen] == r.data[..r.nameLen]
    {
    }
  }

  lemma CachingTakesOn(n: Node)
    requires Inv(n) && Genuine(Id(n), n.packet) && OnMesh(n.state) && !SeesDuplicateId(n)
    ensures var takes := TakesOn(n, Received(n.packet));
            CacheForRepeat(n).relay.accepted == n.relay.accepted + (if takes then [n.packet] else []) &&
            CacheForRepeat(n).relay.relayed == n.relay.relayed
    ensures CacheForRepeat(n).relay.lastSent == n.relay.lastSent
  {
    hide Inv, R.RingInv, NotForRelay, R.AlreadyRelayed, IsRecent, IsForMe, IsMyAnswer, IsForMyRegister, Genuine;
    RingSizes(n);
    RingIsSound(n);
    BusinessMeaning(n);
    RecentMeaning(n.relay, n.packet);
  }

  lemma RingIsSound(n: Node)
    requires Inv(n)
    ensures R.RingInv(n.relay)
  {
  }

  /** Taking on is decided by what the node was when the packet came. */
  lemma ExpiringChangesNothing(n: Node, m: Node, rx: Rx)
    requires m.state == n.state && m.nodeId == n.nodeId && m.registers == n.registers && m.request == n.request
    requires m.relay.accepted == n.relay.accepted && m.relay.relayed == n.relay.relayed
    ensures TakesOn(m, rx) == TakesOn(n, rx)
  {
    hide IsRecent;
  }

  lemma RegardTakesOn(n: Node, now: uint32)
    requires Inv(n) && Genuine(Id(n), n.packet) && OnMesh(n.state) && !SeesDuplicateId(n)
    ensures var r, takes := Regard(n, now).relay, TakesOn(n, Received(n.packet));
            r.accepted == n.relay.accepted + (if takes then [n.packet] else []) && r.relayed == n.relay.relayed &&
            r.lastSent == n.relay.lastSent
  {
    hide Inv, TakesOn, CacheForRepeat, HandleConflictName, HandleDeferredJoining, F.Hear, Genuine;
    var m := ExpireHandled(n);
    assert Reconsider(n, now) == m;
    CachingTakesOn(m);
    ExpiringChangesNothing(n, m, Received(n.packet));
  }

  /** The time of the last relay, or of the last packet received since: both start the delay anew. */
  function LastRelay(n: Node, env: Env): uint32 { if env.rx.Received? then env.rxTime else n.relay.lastSent }

  /** Receiving, exactly: the packet is taken on, or not, and the delay starts anew. */
  lemma ReceivingTakesOn(n: Node, env: Env)
    requires Inv(n)
    ensures var r := HandleRx(n, env).relay;
            r.accepted == n.relay.accepted + (if TakesOn(n, env.rx) then [env.rx.packet] else []) &&
            r.relayed == n.relay.relayed && r.lastSent == LastRelay(n, env)
  {
    hide Inv, Receive, Regard, Serve, SendConflict, TakesOn;
    if env.rx.Received? {
      var n1 := Receive(n, env.rx.packet, env.rxTime);
      ExpiringChangesNothing(n, n1, env.rx);
      if SeesDuplicateId(n1) {
        NotTakenOn(n, env.rx);
      } else if OnMesh(n.state) {
        RegardTakesOn(n1, env.rxTime);
      } else {
        NotTakenOn(n, env.rx);
        OffMeshTakesNothing(n1, env.rxTime);
      }
    } else {
      NotTakenOn(n, env.rx);
    }
  }

  lemma NotTakenOn(n: Node, rx: Rx)
    requires !rx.Received? || !OnMesh(n.state) || Sender(rx.packet) == n.nodeId
    ensures !TakesOn(n, rx)
  {
  }

  lemma OffMeshTakesNothing(n: Node, now: uint32)
    requires Inv(n) && Genuine(Id(n), n.packet) && !OnMesh(n.state)
    ensures Regard(n, now).relay == n.relay
  {
    hide Inv, HandleConflictName, HandleDeferredJoining, F.Hear, Genuine;
  }

  lemma DelayStays(n: Node, env: Env)
    requires Inv(n)
    ensures BeforeRepeating(n, env).randomDelay == n.randomDelay
  {
    hide Inv, HandleRx, UpdateTimers;
    ReceivingKeepsDelay(n, env);
    TimersKeepDelay(HandleRx(n, env), env);
  }

  lemma ReceivingKeepsDelay(n: Node, env: Env)
    requires Inv(n)
    ensures HandleRx(n, env).randomDelay == n.randomDelay
  {
    hide Inv, Serve, Reconsider, Receive;
    if env.rx.Received? {
      var n1 := Receive(n, env.rx.packet, env.rxTime);
      ReceiveKeepsDelay(n, env.rx.packet, env.rxTime);
      ReconsideringKeepsDelay(n1, env.rxTime);
    }
  }

  lemma ReceiveKeepsDelay(n: Node, p: Packet, now: uint32)
    requires Inv(n)
    ensures Receive(n, p, now).randomDelay == n.randomDelay
  {
    hide Inv;
  }

  lemma ReconsideringKeepsDelay(n: Node, now: uint32)
    requires Inv(n) && Genuine(Id(n), n.packet)
    ensures Reconsider(n, now).randomDelay == n.randomDelay
  {
    hide Inv, F.Hear, Genuine;
  }

  lemma TimersKeepDelay(n: Node, env: Env)
    requires Inv(n)
    ensures UpdateTimers(n, env).randomDelay == n.randomDelay
  {
    hide Inv, UpdatePing, CheckTimeouts;
  }

  lemma TimersKeepRing(n: Node, env: Env)
    requires Inv(n)
    ensures UpdateTimers(n, env).relay == n.relay
  {
    hide Inv, UpdateJoin, UpdatePing, CheckTimeouts;
  }

  // ---- when they are sent on ----

  /** All packets taken on once the update has dealt with the one it received. */
  function TakenOn(n: Node, env: Env): seq<Packet> {
    n.relay.accepted + if TakesOn(n, env.rx) then [env.rx.packet] else []
  }

  /** The node's turn to relay: the delay since it last relayed or received is over. */
  predicate HasTurn(n: Node, env: Env) { Elapsed(env.relayTime, LastRelay(n, env)) > n.randomDelay }

  /** The packet with one hop more. */
  function OneHopFurther(p: Packet): Packet
    requires Hop(p) < 6
  {
    p[HOP_SEQ_AT := p[HOP_SEQ_AT] + 1]
  }

  lemma HopIsAdded(p: Packet)
    requires Hop(p) < 6
    ensures R.NextHop(p) == OneHopFurther(p)
  {
  }

  /** Packets taken on have a hop to make. */
  lemma TakenOnMayHop(n: Node, env: Env, i: nat)
    requires Inv(n) && i < |TakenOn(n, env)|
    ensures Hop(TakenOn(n, env)[i]) < 6
  {
    hide R.Remembers, R.NoEcho, F.CacheInv, Q.QueueInv, IsRecent, IsForMe, IsMyAnswer, IsForMyRegister;
  }

  /** The packets sent on by an update: on its turn the oldest one taken on and not yet sent on, if there is
      one. */
  function SendsOn(n: Node, env: Env): seq<Packet>
    requires Inv(n)
  {
    hide Inv, TakesOn;
    var queue := TakenOn(n, env);
    if OnMesh(n.state) && HasTurn(n, env) && |n.relay.relayed| < |queue| then
      TakenOnMayHop(n, env, |n.relay.relayed|);
      [OneHopFurther(queue[|n.relay.relayed|])]
    else []
  }

  /** One update of a node on the mesh, exactly: what it takes on, and what it relays. */
  lemma UpdateRelays(n: Node, env: Env)
    requires Inv(n) && OnMesh(n.state)
    ensures var r := Update(n, env);
            r.relay.accepted == TakenOn(n, env) && r.relay.relayed == n.relay.relayed + SendsOn(n, env) &&
            PacketsOf(r.history.air, Relays) == PacketsOf(n.history.air, Relays) + SendsOn(n, env) &&
            r.relay.lastSent == if SendsOn(n, env) != [] then env.relayTime else LastRelay(n, env)
  {
    hide Inv, Update, UpdateRepeaters, UpdateTimers, HandleRx, TakesOn, R.SendOn, R.Outgoing, PacketsOf, RepeatsResponse, RepeatsRequest,
         ResponseToRepeat;
    var m := BeforeRepeating(n, env);
    ReceivingTakesOn(n, env);
    TimersKeepRing(HandleRx(n, env), env);
    DelayStays(n, env);
    UpdateSends(n, env);
    RepeatersState(m, env);
    if RelayIsDue(m, env.relayTime) { OldestGoes(n, m, env); }
  }

  lemma OldestGoes(n: Node, m: Node, env: Env)
    requires Inv(n) && Inv(m) && m.relay.accepted == TakenOn(n, env) && m.relay.relayed == n.relay.relayed
    requires |m.relay.accepted| > |m.relay.relayed|
    ensures R.Shaped(m.relay) && m.relay.size > 0
    ensures var i := |n.relay.relayed|;
            Hop(TakenOn(n, env)[i]) < 6 && R.Outgoing(m.relay) == OneHopFurther(TakenOn(n, env)[i])
    ensures var r := R.SendOn(m.relay, env.relayTime);
            r.accepted == m.relay.accepted && r.relayed == m.relay.relayed + [R.Outgoing(m.relay)] &&
            r.lastSent == env.relayTime
  {
    hide Inv, TakesOn, R.Fifo, R.Remembers, R.NoEcho;
    RingIsSound(m);
    RingSizes(m);
    R.SendOnKeepsInv(m.relay, env.relayTime);
    TakenOnMayHop(n, env, |n.relay.relayed|);
    HopIsAdded(TakenOn(n, env)[|n.relay.relayed|]);
  }

  // ---- runs ----

  /** All packets relayed in a run, in order. */
  function RelayedIn(n: Node, actions: seq<Action>): seq<Packet>
    requires Inv(n) && AllowedRun(n, actions)
    decreases |actions|
  {
    if actions == [] then []
    else PacketsOf(Act(n, actions[0]).history.air, Relays) + RelayedIn(Act(n, actions[0]), actions[1..])
  }

  /** The number of turns to relay that the node has in a run. */
  function Turns(n: Node, actions: seq<Action>): nat
    requires Inv(n) && AllowedRun(n, actions)
    decreases |actions|
  {
    if actions == [] then 0
    else (if actions[0].DoUpdate? && HasTurn(n, actions[0].env) then 1 else 0) + Turns(Act(n, actions[0]), actions[1..])
  }

  lemma CallRelaysNothing(n: Node, a: Action)
    requires Inv(n) && OnMesh(n.state) && Allowed(n, a) && !a.DoUpdate?
    ensures Act(n, a).relay == n.relay && PacketsOf(Act(n, a).history.air, Relays) == []
  {
    hide Inv, RegisterToPacket, Encodable, PacketsOf, Header;
    CallRelays(n, a);
    NoneSinceAddsNone([], Act(n, a).history.air, Relays);
    assert PacketsOf([], Relays) == [] by { NothingSent(Relays); }
  }

  lemma NothingSent(s: Sort)
    ensures PacketsOf([], s) == []
  {
  }

  lemma CallRelays(n: Node, a: Action)
    requires Inv(n) && OnMesh(n.state) && Allowed(n, a) && !a.DoUpdate?
    ensures Act(n, a).relay == n.relay && NoneSince([], Act(n, a).history.air, Relays)
  {
    hide Inv, RegisterToPacket, Encodable, Header, SendResponse;
  }

  /** One action, exactly. */
  lemma ActRelays(n: Node, a: Action)
    requires Inv(n) && OnMesh(n.state) && Allowed(n, a)
    ensures var r := Act(n, a);
            OnMesh(r.state) &&
            r.relay.accepted == (if a.DoUpdate? then TakenOn(n, a.env) else n.relay.accepted) &&
            r.relay.relayed == n.relay.relayed + PacketsOf(r.history.air, Relays) &&
            PacketsOf(r.history.air, Relays) == if a.DoUpdate? then SendsOn(n, a.env) else []
  {
    hide Inv, Update, TakesOn, PacketsOf, HasTurn;
    if a.DoUpdate? {
      UpdateRelays(Begin(n), a.env);
      ExpiringChangesNothing(n, Begin(n), a.env.rx);
      assert HasTurn(Begin(n), a.env) == HasTurn(n, a.env) by { BeginsWithTurn(n, a.env); }
      NothingSent(Relays);
    } else {
      CallRelaysNothing(n, a);
    }
  }

  lemma BeginsWithTurn(n: Node, env: Env)
    requires Inv(n)
    ensures HasTurn(Begin(n), env) == HasTurn(n, env)
  {
    hide Inv;
  }

  /** A run relays exactly what its ring records, and takes its turns: as long as a packet is queued, each turn
      sends one on. */
  lemma {:induction false} RunRelays(n: Node, actions: seq<Action>)
    requires Inv(n) && OnMesh(n.state) && AllowedRun(n, actions)
    ensures var r := Run(n, actions).relay;
            r.relayed == n.relay.relayed + RelayedIn(n, actions) && n.relay.accepted <= r.accepted &&
            (|n.relay.accepted| <= |r.relayed| || |r.relayed| >= |n.relay.relayed| + Turns(n, actions))
    decreases |actions|
  {
    hide Inv, Act, PacketsOf, TakesOn, HasTurn, OneHopFurther;
    if actions != [] {
      ActRelays(n, actions[0]);
      RunRelays(Act(n, actions[0]), actions[1..]);
    }
  }

  /** What was relayed is what was taken on, in order, each one hop further. */
  lemma RelayedIsTakenOn(n: Node, i: nat)
    requires Inv(n) && i < |n.relay.relayed|
    ensures i < |n.relay.accepted| && Hop(n.relay.accepted[i]) < 6 &&
            n.relay.relayed[i] == OneHopFurther(n.relay.accepted[i])
  {
    hide R.Remembers, R.NoEcho, F.CacheInv, Q.QueueInv, GenuineAir, GenuineSlots, RepliesOnly;
    HopIsAdded(n.relay.accepted[i]);
  }

  /** Relaying is live: a packet taken on is on the air, one hop further, after the node's next turn to relay, or
      the one after it if another packet was queued before, whatever else the node receives and its client
      does meanwhile. */
  lemma TakenOnIsSentOn(n: Node, env: Env, actions: seq<Action>)
    requires Inv(n) && TakesOn(n, env.rx) && AllowedRun(n, [DoUpdate(env)] + actions)
    requires Turns(n, [DoUpdate(env)] + actions) > |n.relay.accepted| - |n.relay.relayed|
    ensures var sent, i := RelayedIn(n, [DoUpdate(env)] + actions), |n.relay.accepted| - |n.relay.relayed|;
            0 <= i <= 1 && i < |sent| && Hop(env.rx.packet) < 6 && sent[i] == OneHopFurther(env.rx.packet)
  {
    hide Inv, Act, Run, RelayedIn, IsRecent, IsForMe, IsMyAnswer, IsForMyRegister, OneHopFurther, HasTurn;
    var all := [DoUpdate(env)] + actions;
    assert all[0] == DoUpdate(env) && all[1..] == actions;
    var m, r := Act(n, DoUpdate(env)), Run(n, all);
    ActRelays(n, DoUpdate(env));
    RunRelays(n, all);
    RunTail(n, all);
    RunRelays(m, actions);
    RingSizes(n);
    var k := |n.relay.accepted|;
    assert m.relay.accepted[k] == env.rx.packet;
    RelayedIsTakenOn(r, k);
  }

  lemma RunTail(n: Node, actions: seq<Action>)
    requires Inv(n) && AllowedRun(n, actions) && actions != []
    ensures Run(n, actions) == Run(Act(n, actions[0]), actions[1..])
    ensures Turns(n, actions) == Turns(Act(n, actions[0]), actions[1..]) +
              if actions[0].DoUpdate? && HasTurn(n, actions[0].env) then 1 else 0
  {
    hide Inv, Act, HasTurn;
  }
}
