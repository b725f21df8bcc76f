/** The client's calls: joining, the five request operations, and value broadcasts. A call that blocks
    in the source is its non-blocking start here; waiting is repeated updates. */
module Operations {
  import opened Bytes
  import opened Packets
  import opened Registers
  import opened Model
  import F = Filter
  import R = Relay
  import Q = Responses
  import P = Presence

  /** `_Is_Node_Idle`: a node takes one operation at a time, and none before it has joined. */
  function Readiness(n: Node): (s: Status)
    ensures s == StatusOk <==> n.state == Idle
    ensures s == NotOnMesh <==> n.state == NotJoined || n.state == Joining
    ensures s != StatusOk && s != NotOnMesh ==> s == Busy
  {
    if !OnMesh(n.state) then NotOnMesh else if n.state != Idle then Busy else StatusOk
  }

  /** A client call clears the record of packets sent. */
  function Begin(n: Node): (r: Node)
    requires Inv(n)
    ensures Inv(r) && r == n.(history := n.history.(air := []))
    ensures Id(r) == Id(n) && Outstanding(r) == Outstanding(n)
  {
    n.(history := n.history.(air := []))
  }

  /** The start common to all operations: state, response filter, callback. */
  function Start(n: Node, state: State, targetNodeId: byte, targetUniqueId: uint16, user: Callback): (r: Node)
    requires Inv(n) && n.state == Idle && OnMesh(state) && state != Idle
    ensures Inv(r) && Id(r) == Id(n) && Steady(n, r) && r.state == state && r.history.air == n.history.air
    ensures r.relay == n.relay && r.filter == n.filter && r.joinRetransmitDelay == n.joinRetransmitDelay
    ensures r.history == n.history.(started := n.history.started + 1)
    ensures r.request == n.request.(targetNodeId := targetNodeId, targetUniqueId := targetUniqueId)
  {
    n.(state := state, client := FinishWith(n, user),
       request := n.request.(targetNodeId := targetNodeId, targetUniqueId := targetUniqueId),
       history := n.history.(started := n.history.started + 1))
  }

  /** A call leaves the node the same one, with the balance of operations kept. */
  ghost predicate Called(n: Node, r: Node) {
    Id(r) == Id(n) && r.joinRetransmitDelay == n.joinRetransmitDelay && r.relay == n.relay && r.filter == n.filter &&
    r.registers == n.registers && Outstanding(r) - r.history.started == Outstanding(n) - n.history.started &&
    r.history.completions == n.history.completions
  }

  /** Sends a request of this node's. */
  function Ask(n: Node, p: Packet, now: uint32): (r: Node)
    requires Inv(n) && Kind(p) != PKT_JOIN && Kind(p) != PKT_CONFLICT_NAME && !IsReply(Kind(p))
    ensures Inv(r) && Calm(n, r.(request := n.request)) && SendsRequest(n, r, p)
    ensures r.state == n.state && r.client == n.client && r.filter == n.filter && Steady(n, r)
    ensures r.request.sentTime == now
  {
    hide Inv, Genuine, SendRequest;
    PacketIsFree(n, p);
    OtherIsGenuine(Id(n), p);
    RequestIsNotQueued(n.(packet := p), now);
    SendRequest(n.(packet := p), now)
  }

  lemma RequestIsNotQueued(n: Node, now: uint32)
    requires Inv(n) && Genuine(Id(n), n.packet) && !IsReply(Kind(n.packet))
    ensures SendRequest(n, now).responses == Q.Stamp(n.responses, now)
  {
    hide Inv, Genuine, Calm;
  }

  /** The call sends this one packet, under the next sequence number, and keeps it for repeating; the delay
      before the next response is repeated starts anew. */
  predicate SendsRequest(n: Node, r: Node, p: Packet) {
    r.history.air == n.history.air + [Tx(Originated, p)] && r.request.pending == p && IsNext(n, r) &&
    r.responses == Q.Stamp(n.responses, r.request.sentTime)
  }

  function Ping(n: Node, user: Callback, now: uint32): (r: (Node, Status))
    requires Inv(n)
    ensures Inv(r.0) && Called(n, r.0) && r.1 == Readiness(n)
    ensures r.1 != StatusOk ==> r.0 == n
    ensures r.1 == StatusOk ==> r.0.state == Pinging && r.0.presence == P.Nobody() && r.0.request.sentTime == now
    ensures r.1 == StatusOk ==> SendsRequest(n, r.0, HeaderFor(n, PKT_PING))
  {
    hide F.CacheInv, R.RingInv, Q.QueueInv, Genuine, Ask, RegisterToPacket, Encodable, Header;
    if Readiness(n) != StatusOk then (n, Readiness(n))
    else
      var n1 := Start(n, Pinging, 0, 0, user).(presence := P.Nobody());
      (Ask(n1, HeaderFor(n1, PKT_PING), now), StatusOk)
  }

  /** What a request's header says of its target is overwritten with the same. */
  lemma TargetIsOverwritten(n: Node, m: Node, kind: byte, target: byte)
    requires m.nodeId == n.nodeId && m.uniqueId == n.uniqueId && m.request.sequence == n.request.sequence
    ensures HeaderFor(m, kind)[TARGET_AT := target] == HeaderFor(n, kind)[TARGET_AT := target]
  {
  }

  function GetNumRegisters(n: Node, target: byte, uniqueId: uint16, user: Callback, now: uint32): (r: (Node, Status))
    requires Inv(n)
    ensures Inv(r.0) && Called(n, r.0) && r.1 == Readiness(n)
    ensures r.1 != StatusOk ==> r.0 == n
    ensures r.1 == StatusOk ==> r.0.state == GettingNumRegisters && r.0.request.sentTime == now
    ensures r.1 == StatusOk ==> SendsRequest(n, r.0, HeaderFor(n, PKT_GET_NUM_REGISTERS)[TARGET_AT := target])
  {
    hide F.CacheInv, R.RingInv, Q.QueueInv, Genuine, Ask, RegisterToPacket, Encodable, Header;
    if Readiness(n) != StatusOk then (n, Readiness(n))
    else
      var n1 := Start(n, GettingNumRegisters, target, uniqueId, user);
      TargetIsOverwritten(n, n1, PKT_GET_NUM_REGISTERS, target);
      (Ask(n1, HeaderFor(n1, PKT_GET_NUM_REGISTERS)[TARGET_AT := target], now), StatusOk)
  }

  function GetRegisterName(n: Node, target: byte, index: byte, uniqueId: uint16, user: Callback, now: uint32)
    : (r: (Node, Status))
    requires Inv(n)
    ensures Inv(r.0) && Called(n, r.0) && r.1 == Readiness(n)
    ensures r.1 != StatusOk ==> r.0 == n
    ensures r.1 == StatusOk ==> r.0.state == GettingRegisterName && r.0.request.sentTime == now
    ensures r.1 == StatusOk ==>
              SendsRequest(n, r.0, HeaderFor(n, PKT_GET_REGISTER_NAME)[TARGET_AT := target][REG_INDEX_AT := index])
  {
    hide F.CacheInv, R.RingInv, Q.QueueInv, Genuine, Ask, RegisterToPacket, Encodable, Header;
    if Readiness(n) != StatusOk then (n, Readiness(n))
    else
      var n0 := Start(n, GettingRegisterName, target, uniqueId, user);
      var n1 := n0.(request := n0.request.(targetIndex := index));
      TargetIsOverwritten(n, n1, PKT_GET_REGISTER_NAME, target);
      var p := HeaderFor(n1, PKT_GET_REGISTER_NAME)[TARGET_AT := target][REG_INDEX_AT := index];
      (Ask(n1, p, now), StatusOk)
  }

  /** The register cache takes over a register's contents but not its callbacks. */
  function CopyInto(cache: Register, src: Register): Register {
    src.(hasSetCallback := cache.hasSetCallback, hasGetCallback := cache.hasGetCallback)
  }

  /** An unencodable register is refused only after the node has become busy, with nothing sent for it. What
      ends the operation then is told by `Refused.RefusedOperationEnds`. */
  function GetRegister(n: Node, reg: Register, user: Callback, now: uint32): (r: (Node, Status))
    requires Inv(n)
    ensures Inv(r.0) && Called(n, r.0)
    ensures r.1 == if Readiness(n) != StatusOk then Readiness(n)
                   else if Encodable(reg, false) then StatusOk else InvalidRegisterLength
    ensures Readiness(n) != StatusOk ==> r.0 == n
    ensures Readiness(n) == StatusOk ==> r.0.state == GettingRegister
    ensures r.1 == StatusOk ==> r.0.request.sentTime == now && Name(r.0.client.register) == Name(reg)
    ensures r.1 == StatusOk ==> SendsRequest(n, r.0, RegisterToPacket(HeaderFor(n, PKT_GET_REGISTER), reg, false))
    ensures r.1 == InvalidRegisterLength ==>
              r.0.history.air == n.history.air && r.0.client.register == n.client.register && r.0.responses == n.responses &&
              r.0.request == n.request.(targetNodeId := 0, targetUniqueId := 0)
  {
    hide F.CacheInv, R.RingInv, Q.QueueInv, Genuine, Ask, RegisterToPacket, Encodable, Header;
    if Readiness(n) != StatusOk then (n, Readiness(n))
    else
      var n1 := Start(n, GettingRegister, 0, 0, user);
      var p := RegisterToPacket(HeaderFor(n1, PKT_GET_REGISTER), reg, false);
      if !Encodable(reg, false) then (n1.(packet := p), InvalidRegisterLength)
      else (Ask(n1.(client := n1.client.(register := CopyInto(n1.client.register, reg))), p, now), StatusOk)
  }

  function SetRegister(n: Node, reg: Register, user: Callback, now: uint32): (r: (Node, Status))
    requires Inv(n)
    ensures Inv(r.0) && Called(n, r.0)
    ensures r.1 == if Readiness(n) != StatusOk then Readiness(n)
                   else if Encodable(reg, true) then StatusOk else InvalidRegisterLength
    ensures Readiness(n) != StatusOk ==> r.0 == n
    ensures Readiness(n) == StatusOk ==> r.0.state == SettingRegister
    ensures r.1 == StatusOk ==> r.0.request.sentTime == now
    ensures r.1 == StatusOk ==> SendsRequest(n, r.0, RegisterToPacket(HeaderFor(n, PKT_SET_REGISTER), reg, true))
    ensures r.1 == InvalidRegisterLength ==>
              r.0.history.air == n.history.air && r.0.responses == n.responses &&
              r.0.request == n.request.(targetNodeId := 0, targetUniqueId := 0)
  {
    hide F.CacheInv, R.RingInv, Q.QueueInv, Genuine, Ask, RegisterToPacket, Encodable, Header;
    if Readiness(n) != StatusOk then (n, Readiness(n))
    else
      var n1 := Start(n, SettingRegister, 0, 0, user);
      var p := RegisterToPacket(HeaderFor(n1, PKT_SET_REGISTER), reg, true);
      if !Encodable(reg, true) then (n1.(packet := p), InvalidRegisterLength) else (Ask(n1, p, now), StatusOk)
  }

  /** A value broadcast: a REGISTER_VALUE packet under node id 0. It takes no callback and no state. */
  function Broadcast(n: Node, reg: Register, now: uint32): (r: (Node, Status))
    requires Inv(n)
    ensures Inv(r.0) && Called(n, r.0) && r.0.state == n.state
    ensures r.1 == if !OnMesh(n.state) then NotOnMesh
                   else if Encodable(reg, true) then StatusOk else InvalidRegisterValue
    ensures r.0.history.air == n.history.air + if r.1 == StatusOk then
              [Tx(Originated, RegisterToPacket(HeaderFor(n, PKT_REGISTER_VALUE)[NODE_ID_AT := 0], reg, true))] else []
  {
    if !OnMesh(n.state) then (n, NotOnMesh)
    else
      var n1 := n.(packet := RegisterToPacket(HeaderFor(n, PKT_REGISTER_VALUE)[NODE_ID_AT := 0], reg, true));
      if !Encodable(reg, true) then (n1, InvalidRegisterValue)
      else
        var n2 := n1.(request := n1.request.(sequence := (n1.request.sequence + 1) % 16));
        (SendResponse(n2, now), StatusOk)
  }

  /** `A7105_Mesh_Broadcast_Listen` */
  function Listen(n: Node, listening: bool, reg: Register): (r: Node)
    requires Inv(n)
    ensures Inv(r) && Called(n, r) && r.state == n.state && r.history.air == n.history.air
    ensures r.client.listening == listening && r.client.broadcast == reg
    ensures r == n.(client := n.client.(listening := r.client.listening, broadcast := r.client.broadcast))
  {
    n.(client := n.client.(listening := listening, broadcast := reg))
  }

  /** A client's join, made before the node has joined. */
  function StartJoin(n: Node, id: byte, user: Callback, now: uint32): (r: Node)
    requires Inv(n) && n.state == NotJoined
    ensures Inv(r) && r.state == Joining && r.nodeId == id && r.joinFirstTx == now && r.request.sentTime == now
    ensures r.uniqueId == n.uniqueId && r.joinRetransmitDelay == n.joinRetransmitDelay
    ensures r.history.heard == n.history.heard && r.history.claims == n.history.claims + {id}
    ensures r.history.air == n.history.air + [Tx(Originated, HeaderFor(n.(nodeId := id), PKT_JOIN))]
    ensures Outstanding(r) - r.history.started == Outstanding(n) - n.history.started
  {
    Join(n.(history := n.history.(started := n.history.started + 1)), id, user, now)
  }

  /** What a client may do with a node. */
  datatype Action =
    | DoUpdate(env: Env)
    | DoJoin(id: byte, user: Callback, now: uint32)
    | DoPing(user: Callback, now: uint32)
    | DoGetNumRegisters(target: byte, uniqueId: uint16, user: Callback, now: uint32)
    | DoGetRegisterName(target: byte, index: byte, uniqueId: uint16, user: Callback, now: uint32)
    | DoGetRegister(register: Register, user: Callback, now: uint32)
    | DoSetRegister(register: Register, user: Callback, now: uint32)
    | DoBroadcast(register: Register, now: uint32)
    | DoListen(listening: bool, register: Register)

  /** Clients join once, as the sketches enforce. */
  predicate Allowed(n: Node, a: Action) {
    a.DoJoin? ==> n.state == NotJoined
  }

  function Act(n: Node, a: Action): (r: Node)
    requires Inv(n) && Allowed(n, a)
    ensures Inv(r) && r.uniqueId == n.uniqueId && r.joinRetransmitDelay == n.joinRetransmitDelay
    ensures Outstanding(r) - r.history.started == Outstanding(n) - n.history.started
    ensures OnMesh(n.state) ==> OnMesh(r.state) && r.nodeId == n.nodeId
    ensures n.state == NotJoined && !a.DoJoin? ==> r.state == NotJoined
    ensures n.state != NotJoined ==> r.state != NotJoined
    ensures !a.DoUpdate? && !a.DoJoin? ==> Id(r) == Id(n)
    ensures n.history.claims <= r.history.claims
  {
    hide F.CacheInv, R.RingInv, Q.QueueInv;
    var b := Begin(n);
    match a
    case DoUpdate(env) => Update(b, env)
    case DoJoin(id, user, now) => StartJoin(b, id, user, now)
    case DoPing(user, now) => Ping(b, user, now).0
    case DoGetNumRegisters(target, uniqueId, user, now) => GetNumRegisters(b, target, uniqueId, user, now).0
    case DoGetRegisterName(target, index, uniqueId, user, now) =>
      GetRegisterName(b, target, index, uniqueId, user, now).0
    case DoGetRegister(register, user, now) => GetRegister(b, register, user, now).0
    case DoSetRegister(register, user, now) => SetRegister(b, register, user, now).0
    case DoBroadcast(register, now) => Broadcast(b, register, now).0
    case DoListen(listening, register) => Listen(b, listening, register)
  }

  lemma InitIsSound(uniqueId: uint16, retransmitDelay: uint16, randomDelay: uint16, registers: seq<Register>)
    requires |registers| <= 255
    ensures var n := Init(uniqueId, retransmitDelay, randomDelay, registers);
            Inv(n) && Balanced(n) && n.state == NotJoined
  {
    InitKeepsInv(uniqueId, retransmitDelay, randomDelay, registers);
  }
}
