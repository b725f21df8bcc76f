/** The mesh node: its state, and every handler and updater as a function from state to state, in the
    order and with the branches of the source. */
module Model {
  import opened Bytes
  import opened Packets
  import opened Registers
  import F = Filter
  import R = Relay
  import Q = Responses
  import P = Presence

  const JOIN_ACCEPT_DELAY := 5000
  const MIN_JOIN_RETRANSMIT_DELAY := 100
  const MAX_JOIN_RETRANSMIT_DELAY := 600
  const PING_TIMEOUT := 4000
  const REQUEST_TIMEOUT := 2000
  const REQUEST_MAX_REPEAT := 4

  datatype State = NotJoined | Joining | Idle | Pinging | GettingNumRegisters | GettingRegisterName
                 | GettingRegister | SettingRegister

  datatype Status = NoStatus | StatusOk | Timeout | InvalidRegisterIndex | InvalidRegisterLength
                  | InvalidRegisterReturned | InvalidRegisterValue | NotOnMesh | Busy | AutoSetRegister

  /** The completion callback: none, the library's own for blocking calls, or the client's. */
  datatype Callback = NullCallback | BlockingFinished | ClientCallback

  datatype Origin = Originated | Relayed | Repeated

  /** A packet handed to the radio. */
  datatype Tx = Tx(origin: Origin, packet: Packet)

  /** What the radio has for this update: nothing, an unreadable packet, or a packet. */
  datatype Rx = NoData | Corrupt(bytes: Packet) | Received(packet: Packet)

  /** What a register's set-callback would do if called: its verdict, the register contents it leaves,
      and the error text it sets, if any. */
  datatype SetReply = SetReply(status: Status, register: Register, error: Option<seq<byte>>)

  /** Everything an update takes from outside the node: the radio, one clock reading per phase, fresh
      random delays, callback results, and memory read behind an array (`stray`, `strayByte`, `behind`). */
  datatype Env = Env(
    rx: Rx,
    rxTime: uint32, joinTime: uint32, pingTime: uint32, timeoutTime: uint32,
    relayTime: uint32, responseTime: uint32, requestTime: uint32,
    relayDelay: uint16, responseDelay: uint16, requestDelay: uint16,
    setReply: SetReply, getReply: Register,
    stray: Register, strayByte: byte, behind: Behind)

  datatype Request = Request(
    sentTime: uint32,
    targetNodeId: byte,
    targetUniqueId: uint16,
    targetIndex: byte,
    sequence: nibble,
    pending: Packet,
    repeatTime: uint32,
    repeatCount: byte)

  datatype Client = Client(
    callback: Callback,
    blockingStatus: Status,
    numRegisters: byte,
    register: Register,
    responderNodeId: byte,
    responderUniqueId: uint16,
    listening: bool,
    broadcast: Register)

  /** Histories kept by no C variable: the packets sent by the current call, the packets ever received
      (hop count apart), the node ids ever claimed, the callbacks made, the operations started. */
  datatype History = History(
    air: seq<Tx>,
    heard: set<Packet>,
    claims: set<byte>,
    completions: seq<Status>,
    started: nat,
    broadcasts: nat)

  datatype Node = Node(
    state: State,
    uniqueId: uint16,
    nodeId: byte,
    randomDelay: uint16,
    registers: seq<Register>,
    packet: Packet,
    request: Request,
    filter: F.Cache,
    joinFirstTx: uint32,
    joinRetransmitDelay: uint16,
    presence: seq<bv8>,
    relay: R.Ring,
    responses: Q.Queue,
    client: Client,
    history: History)

  /** A node as `A7105_Mesh_Initialize` and `A7105_Mesh_Set_Node_Registers` leave it. */
  function Init(uniqueId: uint16, retransmitDelay: uint16, randomDelay: uint16, registers: seq<Register>): Node {
    Node(NotJoined, uniqueId, 0, randomDelay, registers, ZeroPacket(),
         Request(0, 0, 0, 0, 0, ZeroPacket(), 0, 0),
         F.EMPTY_CACHE, 0, retransmitDelay, P.Nobody(), R.EmptyRing(), Q.EMPTY_QUEUE,
         Client(NullCallback, NoStatus, 0, Blank(false, false), 0, 0, false, Blank(false, false)),
         History([], {}, {}, [], 0, 0))
  }

  lemma InitKeepsInv(uniqueId: uint16, retransmitDelay: uint16, randomDelay: uint16, registers: seq<Register>)
    requires |registers| <= 255
    ensures Inv(Init(uniqueId, retransmitDelay, randomDelay, registers))
  {
    F.EmptyCacheTracks();
  }

  predicate OnMesh(s: State) { s != NotJoined && s != Joining }

  /** An operation has been started and its callback is still to come. */
  predicate Awaiting(s: State) { s != NotJoined && s != Idle }

  // ---- the invariant of a node ----

  /** The part of a node that says what JOIN and CONFLICT_NAME packets it may send. */
  datatype Identity = Identity(uniqueId: uint16, nodeId: byte, onMesh: bool, heard: set<Packet>, claims: set<byte>)

  function Id(n: Node): Identity {
    Identity(n.uniqueId, n.nodeId, OnMesh(n.state), n.history.heard, n.history.claims)
  }

  /** A JOIN or CONFLICT_NAME packet is one heard from others, or states the node's own claim: a JOIN
      for an id it claimed, a CONFLICT_NAME for the id it holds on the mesh. */
  predicate Genuine(v: Identity, p: Packet) {
    (Kind(p) == PKT_JOIN ==>
       SansHop(p) in v.heard || (UniqueId(p) == v.uniqueId && Sender(p) in v.claims)) &&
    (Kind(p) == PKT_CONFLICT_NAME ==>
       SansHop(p) in v.heard || (UniqueId(p) == v.uniqueId && v.onMesh && Sender(p) == v.nodeId))
  }

  predicate GenuineAir(v: Identity, air: seq<Tx>) {
    forall i | 0 <= i < |air| :: Genuine(v, air[i].packet)
  }

  /** Only replies are repeated (op 0 is an unused slot). */
  predicate RepliesOnly(slots: seq<Q.Summary>) {
    forall i | 0 <= i < |slots| :: slots[i].op == 0 || IsReply(slots[i].op)
  }

  predicate GenuineSlots(v: Identity, slots: seq<Packet>) {
    forall i | 0 <= i < |slots| :: Genuine(v, slots[i])
  }

  ghost predicate Inv(n: Node) {
    F.CacheInv(n.filter) && R.RingInv(n.relay) && Q.QueueInv(n.responses) &&
    |n.registers| <= 255 && |n.presence| == P.TABLE_BYTES &&
    (n.state != NotJoined ==> n.client.callback != NullCallback && n.nodeId in n.history.claims) &&
    GenuineAir(Id(n), n.history.air) && GenuineSlots(Id(n), n.relay.slots) &&
    Genuine(Id(n), n.request.pending) && RepliesOnly(n.responses.slots)
  }

  /** Operations started and not yet reported, counted two ways by `Balanced`. */
  function Outstanding(n: Node): int {
    |n.history.completions| + if Awaiting(n.state) then 1 else 0
  }

  /** Every operation started has been reported by one callback, or is the one still running. */
  predicate Balanced(n: Node) { Outstanding(n) == n.history.started }

  /** What the packet handlers leave alone: the node's identity, join timers, relay ring, the time of
      its last request, and the balance of operations; an operation may only end. */
  ghost predicate Calm(n: Node, r: Node) {
    Id(r) == Id(n) && r.joinFirstTx == n.joinFirstTx && r.joinRetransmitDelay == n.joinRetransmitDelay &&
    r.relay == n.relay && r.request == n.request && r.randomDelay == n.randomDelay &&
    (r.state == n.state || (OnMesh(n.state) && r.state == Idle)) &&
    Outstanding(r) == Outstanding(n) && r.history.started == n.history.started &&
    n.history.air <= r.history.air && n.history.completions <= r.history.completions
  }

  /** What every step after joining leaves alone: who the node is, where it stands, and the balance of
      operations; histories only grow. */
  ghost predicate Continues(n: Node, r: Node) {
    r.uniqueId == n.uniqueId && r.joinRetransmitDelay == n.joinRetransmitDelay &&
    Outstanding(r) == Outstanding(n) && r.history.started == n.history.started &&
    n.history.air <= r.history.air && n.history.completions <= r.history.completions &&
    n.history.heard <= r.history.heard && n.history.claims <= r.history.claims &&
    (r.state == NotJoined <==> n.state == NotJoined) &&
    (OnMesh(n.state) ==> OnMesh(r.state) && r.nodeId == n.nodeId)
  }

  /** Neither the served registers nor the presence table change. */
  predicate Steady(n: Node, r: Node) { r.registers == n.registers && r.presence == n.presence }

  lemma FewRegisters(n: Node)
    requires Inv(n)
    ensures |n.registers| <= 255
  {
  }

  /** The packet buffer is scratch space. */
  lemma PacketIsFree(n: Node, p: Packet)
    requires Inv(n)
    ensures Inv(n.(packet := p))
  {
  }

  /** So are the client's fields, but for the callback, and the registers' contents. */
  lemma ClientIsFree(n: Node, c: Client)
    requires Inv(n) && c.callback == n.client.callback
    ensures Inv(n.(client := c))
  {
  }

  lemma RegistersAreFree(n: Node, rs: seq<Register>)
    requires Inv(n) && |rs| == |n.registers|
    ensures Inv(n.(registers := rs))
  {
  }

  // ---- sending ----

  /** `_Prep_Packet_Header` */
  function HeaderFor(n: Node, kind: byte): (p: Packet)
    ensures Kind(p) == kind
    ensures IsReply(kind) ==> Target(p) == 0
  {
    Header(kind, n.request.sequence, n.nodeId, n.uniqueId,
           if kind == PKT_GET_NUM_REGISTERS || kind == PKT_GET_REGISTER_NAME then n.request.targetNodeId else 0)
  }

  predicate IsReply(kind: byte) {
    kind == PKT_PONG || kind == PKT_NUM_REGISTERS || kind == PKT_REGISTER_NAME ||
    kind == PKT_REGISTER_VALUE || kind == PKT_SET_REGISTER_ACK
  }

  /** `_Filter_RegisterName`: the first register from `x` on whose name the packet carries. */
  function FindRegister(p: Packet, registers: seq<Register>, x: nat): (i: Option<nat>)
    requires x <= |registers|
    ensures i.Some? ==> x <= i.value < |registers| && NameMatches(p, registers[i.value])
    ensures i.Some? ==> forall j | x <= j < i.value :: !NameMatches(p, registers[j])
    ensures i.None? ==> forall j | x <= j < |registers| :: !NameMatches(p, registers[j])
    decreases |registers| - x
  {
    if x == |registers| then None
    else if NameMatches(p, registers[x]) then Some(x)
    else FindRegister(p, registers, x + 1)
  }

  /** The operation-specific byte of a response's 4-byte summary. */
  function SummaryData(p: Packet, registers: seq<Register>): byte {
    if Kind(p) == PKT_REGISTER_NAME || Kind(p) == PKT_REGISTER_VALUE then
      match FindRegister(p, registers, 0) { case Some(i) => i % 0x100 case None => 255 }
    else Target(p)
  }

  predicate SummaryHasData(kind: byte) {
    kind == PKT_REGISTER_NAME || kind == PKT_REGISTER_VALUE || kind == PKT_SET_REGISTER_ACK
  }

  function AppendResponse(n: Node): (r: Node)
    requires Inv(n) && IsReply(Kind(n.packet))
    ensures Inv(r) && Calm(n, r)
  {
    n.(responses := Q.Append(n.responses, Kind(n.packet), Sequence(n.packet),
                             SummaryData(n.packet, n.registers), SummaryHasData(Kind(n.packet))))
  }

  function Transmit(n: Node, origin: Origin, p: Packet): (r: Node)
    requires Inv(n) && Genuine(Id(n), p)
    ensures Inv(r) && Calm(n, r)
    ensures r.history.air == n.history.air + [Tx(origin, p)]
  {
    n.(history := n.history.(air := n.history.air + [Tx(origin, p)]))
  }

  /** The response timer starts over. */
  function StampResponses(n: Node, now: uint32): (r: Node)
    requires Inv(n)
    ensures Inv(r) && Calm(n, r) && r == n.(responses := Q.Stamp(n.responses, now))
  {
    n.(responses := Q.Stamp(n.responses, now))
  }

  /** `_Send_Response`: remembers a reply for repeating, and sends the packet. */
  function SendResponse(n: Node, now: uint32): (r: Node)
    requires Inv(n) && Genuine(Id(n), n.packet)
    ensures Inv(r) && Calm(n, r)
    ensures r.history.air == n.history.air + [Tx(Originated, n.packet)] && r.packet == n.packet && r.request == n.request
    ensures r.state == n.state && r.client == n.client && r.filter == n.filter && Steady(n, r)
  {
    hide F.CacheInv, R.RingInv, Q.QueueInv, Genuine;
    var n1 := if IsReply(Kind(n.packet)) then AppendResponse(n) else n;
    StampResponses(Transmit(n1, Originated, n.packet), now)
  }

  /** Replaces the cached packet by a reply of the node's own and sends it. */
  function Reply(n: Node, p: Packet, now: uint32): (r: Node)
    requires Inv(n) && IsReply(Kind(p))
    ensures Inv(r) && Calm(n, r)
    ensures r.history.air == n.history.air + [Tx(Originated, p)]
    ensures r.state == n.state && r.client == n.client && r.filter == n.filter && Steady(n, r)
  {
    SendResponse(n.(packet := p), now)
  }

  /** A new request: the next sequence number is taken, and the request has not been repeated yet. */
  predicate IsNext(n: Node, r: Node) {
    r.request.sequence == (n.request.sequence + 1) % 16 && r.request.repeatCount == 0 &&
    r.request.repeatTime == r.request.sentTime
  }

  /** The request is stamped, numbered, and kept for repeating unless it is a JOIN. */
  function Numbered(n: Node, now: uint32): (r: Node)
    requires Inv(n) && Genuine(Id(n), n.packet)
    ensures Inv(r) && r == n.(request := r.request) && r.request.sentTime == now && IsNext(n, r)
    ensures r.request.pending == if Kind(n.packet) == PKT_JOIN then n.request.pending else n.packet
  {
    n.(request := n.request.(sentTime := now, sequence := (n.request.sequence + 1) % 16,
                             repeatCount := 0, repeatTime := now,
                             pending := if Kind(n.packet) != PKT_JOIN then n.packet else n.request.pending))
  }

  /** `_Send_Request` */
  function SendRequest(n: Node, now: uint32): (r: Node)
    requires Inv(n) && Genuine(Id(n), n.packet)
    ensures Inv(r) && Calm(n, r.(request := n.request))
    ensures r.history.air == n.history.air + [Tx(Originated, n.packet)]
    ensures r.request.sentTime == now && r.packet == n.packet && IsNext(n, r)
    ensures r.request.pending == if Kind(n.packet) == PKT_JOIN then n.request.pending else n.packet
    ensures r.state == n.state && r.client == n.client && r.filter == n.filter && Steady(n, r)
  {
    hide Inv, Genuine, SendResponse;
    SendResponse(Numbered(n, now), now)
  }

  function FinishWith(n: Node, user: Callback): Client {
    n.client.(callback := if user == NullCallback then BlockingFinished else user, blockingStatus := NoStatus)
  }

  /** The client is told that its operation has ended. */
  function Complete(n: Node, status: Status): (r: Node)
    requires Inv(n) && OnMesh(n.state) && n.state != Idle
    ensures Inv(r) && Calm(n, r)
    ensures r.state == Idle && r.history.completions == n.history.completions + [status]
    ensures r.history.air == n.history.air && r.filter == n.filter && Steady(n, r)
  {
    Report(n.(state := Idle), status)
  }

  function Report(n: Node, status: Status): (r: Node)
    ensures Id(r) == Id(n)
    ensures r.history == n.history.(completions := n.history.completions + [status])
    ensures r == n.(client := r.client, history := r.history)
    ensures r.client == n.client.(blockingStatus := r.client.blockingStatus)
  {
    n.(client := if n.client.callback == BlockingFinished then n.client.(blockingStatus := status) else n.client,
       history := n.history.(completions := n.history.completions + [status]))
  }

  // ---- joining ----

  /** A node that takes up an id may send JOINs for it, and loses nothing it may send. */
  lemma ClaimKeepsGenuine(v: Identity, w: Identity, p: Packet)
    requires Genuine(v, p) && v.uniqueId == w.uniqueId && v.heard <= w.heard && v.claims <= w.claims
    requires v.onMesh ==> w.onMesh && w.nodeId == v.nodeId
    ensures Genuine(w, p)
  {
  }

  /** The state in which `A7105_Mesh_Join` sends its first JOIN packet. */
  function Claiming(n: Node, id: byte, user: Callback, now: uint32): Node {
    n.(state := Joining, nodeId := id, joinFirstTx := now,
       request := n.request.(targetUniqueId := 0), client := FinishWith(n, user),
       history := n.history.(claims := n.history.claims + {id}))
  }

  lemma ClaimingKeepsInv(n: Node, id: byte, user: Callback, now: uint32)
    requires Inv(n) && !OnMesh(n.state)
    ensures Inv(Claiming(n, id, user, now))
  {
    var r := Claiming(n, id, user, now);
    forall p: Packet | Genuine(Id(n), p) ensures Genuine(Id(r), p) { ClaimKeepsGenuine(Id(n), Id(r), p); }
  }

  /** A node that has claimed its id may say so, and on the mesh defend it. */
  lemma OwnJoinIsGenuine(n: Node)
    requires Inv(n) && n.state != NotJoined
    ensures Genuine(Id(n), HeaderFor(n, PKT_JOIN))
  {
    HeaderFields(PKT_JOIN, n.request.sequence, n.nodeId, n.uniqueId, 0);
  }

  lemma OwnConflictIsGenuine(n: Node)
    requires Inv(n) && OnMesh(n.state)
    ensures Genuine(Id(n), HeaderFor(n, PKT_CONFLICT_NAME))
  {
    HeaderFields(PKT_CONFLICT_NAME, n.request.sequence, n.nodeId, n.uniqueId, 0);
  }

  /** `A7105_Mesh_Join`; `user` is the callback passed. */
  function Join(n: Node, id: byte, user: Callback, now: uint32): (r: Node)
    requires Inv(n) && !OnMesh(n.state)
    ensures Inv(r)
    ensures r.history.air == n.history.air + [Tx(Originated, HeaderFor(n.(nodeId := id), PKT_JOIN))]
    ensures r.state == Joining && r.nodeId == id && r.joinFirstTx == now && r.request.sentTime == now && IsNext(n, r)
    ensures r.uniqueId == n.uniqueId && r.joinRetransmitDelay == n.joinRetransmitDelay
    ensures r.relay == n.relay && r.filter == n.filter && Steady(n, r) && Genuine(Id(r), r.packet)
    ensures r.history == n.history.(air := r.history.air, claims := n.history.claims + {id})
  {
    ClaimingKeepsInv(n, id, user, now);
    var n1 := Claiming(n, id, user, now);
    HeaderFields(PKT_JOIN, n.request.sequence, id, n.uniqueId, 0);
    SendRequest(n1.(packet := HeaderFor(n1, PKT_JOIN)), now)
  }

  /** The joining node has waited long enough and considers itself on the mesh. */
  function Accepted(n: Node): (r: Node)
    requires Inv(n) && n.state == Joining
    ensures Inv(r) && Steady(n, r)
    ensures r.state == Idle && r.nodeId == n.nodeId && r.uniqueId == n.uniqueId && r.request == n.request
    ensures r.history == n.history.(completions := n.history.completions + [StatusOk])
    ensures r.relay == n.relay && r.filter == n.filter
  {
    AcceptedKeepsInv(n);
    Report(n.(state := Idle), StatusOk)
  }

  lemma AcceptedKeepsInv(n: Node)
    requires Inv(n) && n.state == Joining
    ensures Inv(n.(state := Idle))
  {
    var r := n.(state := Idle);
    forall p: Packet | Genuine(Id(n), p) ensures Genuine(Id(r), p) { ClaimKeepsGenuine(Id(n), Id(r), p); }
  }

  function ResendJoin(n: Node, now: uint32): (r: Node)
    requires Inv(n) && n.state == Joining
    ensures Inv(r) && Calm(n, r.(request := n.request)) && Steady(n, r)
    ensures r.state == Joining && r.request.sentTime == now && r.filter == n.filter && IsNext(n, r)
    ensures r.history.air == n.history.air + [Tx(Originated, HeaderFor(n, PKT_JOIN))]
  {
    HeaderFields(PKT_JOIN, n.request.sequence, n.nodeId, n.uniqueId, 0);
    SendRequest(n.(packet := HeaderFor(n, PKT_JOIN)), now)
  }

  /** `_Update_Join` */
  function UpdateJoin(n: Node, now: uint32): (r: Node)
    requires Inv(n)
    ensures Inv(r) && Continues(n, r) && Steady(n, r) && r.relay == n.relay && r.filter == n.filter
  {
    hide F.CacheInv, R.RingInv, Q.QueueInv;
    if n.state != Joining then n
    else if Elapsed(now, n.joinFirstTx) > JOIN_ACCEPT_DELAY then Accepted(n)
    else if Elapsed(now, n.request.sentTime) > n.joinRetransmitDelay then ResendJoin(n, now)
    else n
  }

  /** A node on the mesh receives a packet sent under its own node id by another node. */
  predicate SeesDuplicateId(n: Node) {
    OnMesh(n.state) && Sender(n.packet) == n.nodeId && UniqueId(n.packet) != n.uniqueId
  }

  /** `_Check_For_Node_ID_Conflicts`, when it finds one. */
  function SendConflict(n: Node, now: uint32): (r: Node)
    requires Inv(n) && OnMesh(n.state)
    ensures Inv(r) && Calm(n, r.(request := n.request)) && Continues(n, r) && Steady(n, r)
    ensures r.history.air == n.history.air + [Tx(Originated, HeaderFor(n, PKT_CONFLICT_NAME))]
    ensures r.state == n.state && r.request.sentTime == now && r.filter == n.filter && IsNext(n, r)
  {
    HeaderFields(PKT_CONFLICT_NAME, n.request.sequence, n.nodeId, n.uniqueId, 0);
    SendRequest(n.(packet := HeaderFor(n, PKT_CONFLICT_NAME)), now)
  }

  /** A CONFLICT_NAME packet of another node for the id this node holds or wants. */
  predicate ConflictForUs(n: Node) {
    Kind(n.packet) == PKT_CONFLICT_NAME && Sender(n.packet) == n.nodeId && UniqueId(n.packet) != n.uniqueId
  }

  /** A JOIN packet of a node with a higher unique id for the id this node wants. */
  predicate MustDefer(n: Node) {
    Kind(n.packet) == PKT_JOIN && Sender(n.packet) == n.nodeId && UniqueId(n.packet) > n.uniqueId
  }

  /** `node_id + 1` in a byte */
  function NextId(id: byte): byte { (id + 1) % 0x100 }

  function HeaderOf(p: Packet): F.Header { F.Header(Kind(p), Sequence(p), UniqueId(p)) }

  /** `_Handling_Request` */
  function MarkHandled(n: Node): (r: Node)
    requires Inv(n) && (Kind(n.packet) <= 1 || !F.Seen(n.filter, HeaderOf(n.packet)))
    ensures Inv(r) && Calm(n, r) && Steady(n, r)
    ensures r == n.(filter := F.Mark(n.filter, HeaderOf(n.packet)))
  {
    F.StepsKeepInv(n.filter, HeaderOf(n.packet), 0, 0);
    n.(filter := F.Mark(n.filter, HeaderOf(n.packet)))
  }

  /** `_Handle_Conflict_Name`. Its branch for nodes on the mesh is absent: a packet it could act on has
      already been answered by `SendConflict`, as `ConflictOnlyForJoiners` states. */
  function HandleConflictName(n: Node, now: uint32): (r: Node)
    requires Inv(n) && Genuine(Id(n), n.packet)
    ensures Inv(r) && Continues(n, r) && Steady(n, r) && r.relay == n.relay && Genuine(Id(r), r.packet)
    ensures r.state == n.state && r.history.completions == n.history.completions
    ensures !(n.state == Joining && ConflictForUs(n)) ==> r == n
  {
    hide F.CacheInv, R.RingInv, Q.QueueInv;
    if ConflictForUs(n) && n.state == Joining then
      Join(MarkHandled(n), NextId(n.nodeId), n.client.callback, now)
    else n
  }

  lemma ConflictOnlyForJoiners(n: Node)
    requires !SeesDuplicateId(n) && ConflictForUs(n)
    ensures !OnMesh(n.state)
  {
  }

  /** `_Handle_Deferred_Joining` */
  function HandleDeferredJoining(n: Node, now: uint32): (r: Node)
    requires Inv(n) && Genuine(Id(n), n.packet)
    ensures Inv(r) && Continues(n, r) && Steady(n, r) && r.relay == n.relay && Genuine(Id(r), r.packet)
    ensures r.state == n.state && r.history.completions == n.history.completions
    ensures !(n.state == Joining && MustDefer(n)) ==> r == n
  {
    hide F.CacheInv, R.RingInv, Q.QueueInv;
    if n.state == Joining && MustDefer(n) then Join(n, NextId(n.nodeId), n.client.callback, now) else n
  }

  // ---- relaying ----

  /** The packet needs no repeating: this node sent it, is its only addressee, or serves its register. */
  predicate NotForRelay(n: Node) {
    var p := n.packet;
    (Sender(p) == n.nodeId && UniqueId(p) == n.uniqueId) ||
    ((Kind(p) == PKT_GET_NUM_REGISTERS || Kind(p) == PKT_SET_REGISTER_ACK || Kind(p) == PKT_GET_REGISTER_NAME) &&
     Target(p) == n.nodeId) ||
    (((n.state == GettingNumRegisters && Kind(p) == PKT_NUM_REGISTERS) ||
      (n.state == GettingRegisterName && Kind(p) == PKT_REGISTER_NAME)) &&
     Sender(p) == n.request.targetNodeId &&
     (n.request.targetUniqueId == 0 || UniqueId(p) == n.request.targetUniqueId)) ||
    exists r | r in n.registers :: PacketHasRegister(p, r)
  }

  /** `_Cache_Packet_For_Repeat` */
  function CacheForRepeat(n: Node): (r: Node)
    requires Inv(n) && Genuine(Id(n), n.packet)
    ensures Inv(r) && Steady(n, r) && r == n.(relay := r.relay)
    ensures r.relay == if OnMesh(n.state) && !NotForRelay(n) then R.Offer(n.relay, n.packet) else n.relay
  {
    if !OnMesh(n.state) || NotForRelay(n) then n
    else
      R.OfferKeepsInv(n.relay, n.packet);
      n.(relay := R.Offer(n.relay, n.packet))
  }

  /** `_Update_Repeats` */
  function UpdateRepeats(n: Node, now: uint32, delay: uint16): (r: Node)
    requires Inv(n)
    ensures Inv(r) && Calm(n, r.(relay := n.relay, randomDelay := n.randomDelay)) && Steady(n, r) && r.state == n.state
    ensures (r.relay == n.relay && r.history.air == n.history.air) ||
            (n.relay.size > 0 && r.relay == R.SendOn(n.relay, now) &&
             r.history.air == n.history.air + [Tx(Relayed, R.Outgoing(n.relay))])
  {
    if OnMesh(n.state) && n.relay.size > 0 && Elapsed(now, n.relay.lastSent) > n.randomDelay then
      R.SendOnKeepsInv(n.relay, now);
      assert Genuine(Id(n), n.relay.slots[n.relay.start]);
      var n1 := Transmit(n.(randomDelay := delay), Relayed, R.Outgoing(n.relay));
      n1.(relay := R.SendOn(n1.relay, now))
    else n
  }

  /** The operation-specific part of a packet rebuilt from its summary. */
  function Filled(p: Packet, registers: seq<Register>, s: Q.Summary, stray: Register): (q: Packet)
    requires Kind(p) == s.op && p[DATA_AT] <= ARRAY_SIZE
    ensures Kind(q) == s.op
  {
    var reg := if s.data < |registers| then registers[s.data] else stray;
    if s.op == PKT_NUM_REGISTERS then p[DATA_AT := |registers| % 0x100]
    else if s.op == PKT_REGISTER_NAME then WithRegisterIndex(RegisterToPacket(p, reg, false), s.data)
    else if s.op == PKT_REGISTER_VALUE then RegisterToPacket(p, reg, true)
    else if s.op == PKT_SET_REGISTER_ACK then p[TARGET_AT := s.data]
    else p
  }

  /** The packet a cached response is rebuilt into (`_Response_Repeat_Cache_Packet_Prep`). */
  function Rebuilt(n: Node, s: Q.Summary, stray: Register): (p: Packet)
    requires s.op == 0 || IsReply(s.op)
    ensures Kind(p) == s.op
  {
    Filled(WithSequence(HeaderFor(n, s.op), s.sequence), n.registers, s, stray)
  }

  lemma RepeatKeepsReplies(q: Q.Queue, now: uint32)
    requires Q.Shaped(q) && q.size > 0 && RepliesOnly(q.slots)
    ensures RepliesOnly(Q.Repeat(q, now).slots)
  {
  }

  predicate MayRepeatResponse(n: Node, now: uint32) {
    n.state != NotJoined && n.responses.size > 0 && Elapsed(now, n.responses.lastSent) > n.randomDelay
  }

  /** `_Update_Response_Repeats` */
  function UpdateResponseRepeats(n: Node, now: uint32, delay: uint16, stray: Register): (r: Node)
    requires Inv(n)
    ensures Inv(r) && Calm(n, r.(randomDelay := n.randomDelay)) && Steady(n, r) && r.state == n.state
    ensures r.history.completions == n.history.completions
  {
    hide F.CacheInv, R.RingInv, Q.Repeat, Q.Chosen, Rebuilt, Genuine;
    if !MayRepeatResponse(n, now) then n
    else
      Q.RepeatKeepsInv(n.responses, now);
      RepeatKeepsReplies(n.responses, now);
      OtherIsGenuine(Id(n), Rebuilt(n, Q.Live(n.responses, Q.Chosen(n.responses)), stray));
      var p := Rebuilt(n, Q.Live(n.responses, Q.Chosen(n.responses)), stray);
      var n1 := Transmit(n.(packet := p, randomDelay := delay), Repeated, p);
      n1.(responses := Q.Repeat(n1.responses, now))
  }

  /** Only packets about ids need grounds. */
  lemma OtherIsGenuine(v: Identity, p: Packet)
    requires Kind(p) != PKT_JOIN && Kind(p) != PKT_CONFLICT_NAME
    ensures Genuine(v, p)
  {
  }

  lemma OutgoingIsGenuine(n: Node)
    requires Inv(n) && n.relay.size > 0
    ensures R.Shaped(n.relay) && Genuine(Id(n), R.Outgoing(n.relay))
  {
    R.SendOnKeepsInv(n.relay, 0);
    assert Genuine(Id(n), n.relay.slots[n.relay.start]);
  }

  /** What the repeaters may rely on. */
  lemma RepeatsAreSound(n: Node)
    requires Inv(n)
    ensures Genuine(Id(n), n.request.pending) && Q.Shaped(n.responses)
    ensures n.responses.size > 0 ==>
              var op := Q.Live(n.responses, Q.Chosen(n.responses)).op;
              op == 0 || IsReply(op)
  {
  }

  predicate MayRepeatRequest(n: Node, now: uint32) {
    OnMesh(n.state) && n.state != Idle && n.request.repeatCount < REQUEST_MAX_REPEAT &&
    Elapsed(now, n.request.repeatTime) > n.randomDelay
  }

  /** `_Update_Request_Repeats` */
  function UpdateRequestRepeats(n: Node, now: uint32, delay: uint16): (r: Node)
    requires Inv(n)
    ensures Inv(r) && Calm(n, r.(randomDelay := n.randomDelay, request := n.request)) && Steady(n, r)
    ensures r.state == n.state && r.request.sentTime == n.request.sentTime
  {
    if !MayRepeatRequest(n, now) then n
    else
      var n1 := n.(randomDelay := delay,
                   request := n.request.(repeatTime := now, repeatCount := n.request.repeatCount + 1));
      Transmit(n1, Repeated, n.request.pending)
  }

  // ---- packet handlers ----

  /** `_Filter_Packet(.., true)`: a request of this type not handled yet. */
  predicate Passes(n: Node, kind: byte) {
    Kind(n.packet) == kind && !F.Seen(n.filter, HeaderOf(n.packet))
  }

  /** `_Filter_Packet(.., false)`: a response of this type from the node asked. */
  predicate Answers(n: Node, kind: byte) {
    Kind(n.packet) == kind &&
    (n.request.targetNodeId == 0 || Sender(n.packet) == n.request.targetNodeId) &&
    (n.request.targetUniqueId == 0 || UniqueId(n.packet) == n.request.targetUniqueId)
  }

  function HandlePing(n: Node, now: uint32): (r: Node)
    requires Inv(n)
    ensures Inv(r) && Calm(n, r) && Steady(n, r)
  {
    if OnMesh(n.state) && n.uniqueId != UniqueId(n.packet) && Passes(n, PKT_PING) then
      Reply(MarkHandled(n), HeaderFor(n, PKT_PONG), now)
    else n
  }

  function HandlePong(n: Node): (r: Node)
    requires Inv(n)
    ensures Inv(r) && Calm(n, r) && r.registers == n.registers
    ensures r.presence == if n.state == Pinging && Answers(n, PKT_PONG) then P.WithPresent(n.presence, Sender(n.packet))
                          else n.presence
  {
    if n.state == Pinging && Answers(n, PKT_PONG) then
      n.(presence := P.WithPresent(n.presence, Sender(n.packet)))
    else n
  }

  function HandleGetNumRegisters(n: Node, now: uint32): (r: Node)
    requires Inv(n)
    ensures Inv(r) && Calm(n, r) && Steady(n, r)
  {
    if OnMesh(n.state) && Passes(n, PKT_GET_NUM_REGISTERS) && Target(n.packet) == n.nodeId then
      Reply(MarkHandled(n), HeaderFor(n, PKT_NUM_REGISTERS)[DATA_AT := |n.registers|], now)
    else n
  }

  /** The responder's ids are recorded before an operation completes. */
  function FromResponder(n: Node): Client {
    n.client.(responderNodeId := Sender(n.packet), responderUniqueId := UniqueId(n.packet))
  }

  function HandleNumRegisters(n: Node): (r: Node)
    requires Inv(n)
    ensures Inv(r) && Calm(n, r) && Steady(n, r)
  {
    if n.state == GettingNumRegisters && Answers(n, PKT_NUM_REGISTERS) then
      Complete(n.(client := FromResponder(n).(numRegisters := n.packet[DATA_AT])), StatusOk)
    else n
  }

  /** The reply to a request for the name of register `index`. */
  function NameReply(n: Node, index: byte): (p: Packet)
    ensures Kind(p) == PKT_REGISTER_NAME
  {
    var p := HeaderFor(n, PKT_REGISTER_NAME);
    if index < |n.registers| then WithRegisterIndex(RegisterToPacket(p, n.registers[index], false), index) else p
  }

  function HandleGetRegisterName(n: Node, now: uint32): (r: Node)
    requires Inv(n)
    ensures Inv(r) && Calm(n, r) && Steady(n, r)
  {
    if OnMesh(n.state) && Passes(n, PKT_GET_REGISTER_NAME) && Target(n.packet) == n.nodeId then
      Reply(MarkHandled(n), NameReply(n, n.packet[REG_INDEX_AT]), now)
    else n
  }

  function HandleRegisterName(n: Node, strayByte: byte): (r: Node)
    requires Inv(n)
    ensures Inv(r) && Calm(n, r) && Steady(n, r)
  {
    if n.state == GettingRegisterName && Answers(n, PKT_REGISTER_NAME) &&
       n.request.targetIndex == RegisterIndex(n.packet, strayByte) then
      Complete(n.(client := FromResponder(n).(register := PacketToRegister(n.packet, n.client.register, false))),
               if Decodable(n.packet, false) then StatusOk else InvalidRegisterIndex)
    else n
  }

  /** What a callback leaves of a register: its contents are the callback's, its callbacks stay. */
  function Rewritten(r: Register, left: Register): Register {
    left.(hasSetCallback := r.hasSetCallback, hasGetCallback := r.hasGetCallback)
  }

  /** The served register as the get-callback, if there is one, leaves it. */
  function Refreshed(r: Register, getReply: Register): Register {
    if r.hasGetCallback then Rewritten(r, getReply) else r
  }

  function HandleGetRegister(n: Node, getReply: Register, now: uint32): (r: Node)
    requires Inv(n)
    ensures Inv(r) && Calm(n, r) && r.presence == n.presence
  {
    if OnMesh(n.state) && Passes(n, PKT_GET_REGISTER) then
      match FindRegister(n.packet, n.registers, 0)
      case None => n
      case Some(i) =>
        var reg := Refreshed(n.registers[i], getReply);
        Reply(MarkHandled(n).(registers := n.registers[i := reg]),
              RegisterToPacket(HeaderFor(n, PKT_REGISTER_VALUE), reg, true), now)
    else n
  }

  function HandleRegisterValue(n: Node): (r: Node)
    requires Inv(n)
    ensures Inv(r) && Calm(n, r) && Steady(n, r)
  {
    if n.state == GettingRegister && Answers(n, PKT_REGISTER_VALUE) && NameMatches(n.packet, n.client.register) then
      Complete(n.(client := FromResponder(n).(register := PacketToRegister(n.packet, n.client.register, true))),
               if Decodable(n.packet, true) then StatusOk else InvalidRegisterReturned)
    else n
  }

  function Text(s: string): seq<byte> { seq(|s|, i requires 0 <= i < |s| => s[i] as int % 0x100) }

  /** An error text is put at the front of the register cache. */
  function WithText(r: Register, text: string): Register {
    r.(data := Patch(r.data, 0, StrNCpy(Text(text), PART_SIZE - 1)))
  }

  /** What a SET_REGISTER request does to the register it names, to the register cache that carries
      error texts, and whether the acknowledgement reports an error. */
  datatype SetOutcome = SetOutcome(register: Register, cache: Register, error: bool)

  function SetByCallback(reg: Register, cache: Register, reply: SetReply): SetOutcome {
    var told := if reply.error.Some? then WithError(cache, reply.error.value) else cache;
    var left := Rewritten(reg, reply.register);
    if reply.status == InvalidRegisterValue then
      SetOutcome(left, if told.errorSet then told else WithText(told, "Unknown Error (not set)"), true)
    else if reply.status == StatusOk || reply.status == AutoSetRegister then SetOutcome(left, told, false)
    else SetOutcome(left, WithText(told, "Remote Callback Error"), false)
  }

  function SetFromPacket(p: Packet, o: SetOutcome): SetOutcome {
    if Decodable(p, true) then o.(register := PacketToRegister(p, o.register, true))
    else SetOutcome(o.register, WithText(o.cache, "Invalid Value Size"), true)
  }

  function SetRequested(p: Packet, reg: Register, cache: Register, reply: SetReply): SetOutcome {
    if !reg.hasSetCallback then SetFromPacket(p, SetOutcome(reg, cache, false))
    else
      var o := SetByCallback(reg, cache, reply);
      if reply.status == AutoSetRegister then SetFromPacket(p, o) else o
  }

  function SetAck(n: Node, target: byte, o: SetOutcome): (p: Packet)
    ensures Kind(p) == PKT_SET_REGISTER_ACK
  {
    var p := HeaderFor(n, PKT_SET_REGISTER_ACK)[TARGET_AT := target];
    if o.error then Patch(p, ERR_MSG_AT, StrNCpy(o.cache.data, PART_SIZE - 1)) else p
  }

  /** The outcome of a SET_REGISTER request for register `i` is stored; the register cache is cleared
      when its error text is to be sent. */
  function StoreOutcome(n: Node, i: nat, o: SetOutcome): (r: Node)
    requires Inv(n) && i < |n.registers|
    ensures Inv(r) && Id(r) == Id(n)
    ensures r == n.(registers := n.registers[i := o.register.(errorSet := false)], client := r.client)
    ensures r.client == n.client.(register := if o.error then Blank(false, false) else o.cache)
  {
    hide F.CacheInv, R.RingInv, Q.QueueInv, Genuine;
    n.(registers := n.registers[i := o.register.(errorSet := false)],
       client := n.client.(register := if o.error then Blank(false, false) else o.cache))
  }

  /** A SET_REGISTER request for register `i` has been worked out: it is stored and acknowledged. */
  function Acknowledge(n: Node, i: nat, o: SetOutcome, now: uint32): (r: Node)
    requires Inv(n) && i < |n.registers| && Passes(n, PKT_SET_REGISTER)
    ensures Inv(r) && Calm(n, r) && r.presence == n.presence
    ensures r.registers == n.registers[i := o.register.(errorSet := false)]
    ensures r.history.air == n.history.air + [Tx(Originated, SetAck(n, Sender(n.packet), o))]
  {
    hide Inv, SetAck, SendResponse, StoreOutcome;
    Reply(StoreOutcome(MarkHandled(n), i, o), SetAck(n, Sender(n.packet), o), now)
  }

  /** An acknowledgement is sent the same whatever the registers hold. */
  lemma AckIgnoresRegisters(n: Node, rs: seq<Register>, now: uint32)
    requires Inv(n) && Kind(n.packet) == PKT_SET_REGISTER_ACK && |rs| == |n.registers|
    ensures Inv(n.(registers := rs)) && Genuine(Id(n), n.packet)
    ensures SendResponse(n.(registers := rs), now) == SendResponse(n, now).(registers := rs)
  {
    hide F.CacheInv, R.RingInv, Q.QueueInv, GenuineAir, GenuineSlots, RepliesOnly;
  }

  function HandleSetRegister(n: Node, reply: SetReply, now: uint32): (r: Node)
    requires Inv(n)
    ensures Inv(r) && Calm(n, r) && r.presence == n.presence
  {
    hide F.CacheInv, R.RingInv, Q.QueueInv;
    if OnMesh(n.state) && Passes(n, PKT_SET_REGISTER) then
      match FindRegister(n.packet, n.registers, 0)
      case None => n
      case Some(i) => Acknowledge(n, i, SetRequested(n.packet, n.registers[i], n.client.register, reply), now)
    else n
  }

  function HandleSetRegisterAck(n: Node): (r: Node)
    requires Inv(n)
    ensures Inv(r) && Calm(n, r) && Steady(n, r)
  {
    if n.state == SettingRegister && Answers(n, PKT_SET_REGISTER_ACK) && Target(n.packet) == n.nodeId then
      if n.packet[ERR_MSG_AT] != 0 then
        var cache := n.client.register.(errorSet := true,
          data := Patch(n.client.register.data, 0, StrNCpy(n.packet[ERR_MSG_AT..], PART_SIZE - 1)));
        Complete(n.(client := FromResponder(n).(register := cache)), InvalidRegisterValue)
      else Complete(n.(client := FromResponder(n)), StatusOk)
    else n
  }

  function HandleBroadcast(n: Node, behind: Behind): (r: Node)
    requires Inv(n)
    ensures Inv(r) && Calm(n, r) && Steady(n, r)
  {
    if OnMesh(n.state) && n.client.listening && Sender(n.packet) == 0 && Passes(n, PKT_REGISTER_VALUE) &&
       !NameAndValueMatch(n.packet, n.client.broadcast, behind) && Decodable(n.packet, true) then
      DecodedFields(n.packet, n.client.broadcast);
      var n1 := MarkHandled(n);
      n1.(client := n1.client.(broadcast := PacketToRegister(n.packet, n.client.broadcast, true)),
          history := n1.history.(broadcasts := n1.history.broadcasts + 1))
    else n
  }

  function UpdatePing(n: Node, now: uint32): (r: Node)
    requires Inv(n)
    ensures Inv(r) && Calm(n, r) && Steady(n, r)
  {
    if n.state == Pinging && Elapsed(now, n.request.sentTime) > PING_TIMEOUT then Complete(n, StatusOk) else n
  }

  /** `_Check_For_Timeout` for the four operations with a request timeout. */
  function CheckTimeouts(n: Node, now: uint32): (r: Node)
    requires Inv(n)
    ensures Inv(r) && Calm(n, r) && Steady(n, r)
  {
    if OnMesh(n.state) && n.state != Idle && n.state != Pinging &&
       Elapsed(now, n.request.sentTime) > REQUEST_TIMEOUT
    then Complete(n, Timeout) else n
  }

  // ---- receiving ----

  /** A packet is in the cache; the relay timer starts over. */
  function Receive(n: Node, p: Packet, now: uint32): (r: Node)
    requires Inv(n)
    ensures Inv(r) && Genuine(Id(r), p) && Continues(n, r) && Steady(n, r) && r.packet == p
    ensures r.state == n.state && r.nodeId == n.nodeId && r.uniqueId == n.uniqueId && r.client == n.client
    ensures r.filter == n.filter && r.request == n.request && r.joinFirstTx == n.joinFirstTx
    ensures r.history == n.history.(heard := n.history.heard + {SansHop(p)}) && r.relay == R.Stamp(n.relay, now)
  {
    HearingKeepsGenuine(n, p);
    n.(packet := p, relay := R.Stamp(n.relay, now), history := n.history.(heard := n.history.heard + {SansHop(p)}))
  }

  lemma HearingKeepsGenuine(n: Node, p: Packet)
    requires Inv(n)
    ensures var r := n.(history := n.history.(heard := n.history.heard + {SansHop(p)}));
            Inv(r) && Genuine(Id(r), p)
  {
    var r := n.(history := n.history.(heard := n.history.heard + {SansHop(p)}));
    forall q: Packet | Genuine(Id(n), q) ensures Genuine(Id(r), q) { ClaimKeepsGenuine(Id(n), Id(r), q); }
  }

  /** `_Update_Handled_Packet_Cache` */
  function ExpireHandled(n: Node): (r: Node)
    requires Inv(n)
    ensures Inv(r) && r == n.(filter := F.Hear(n.filter, Sequence(n.packet), UniqueId(n.packet)))
  {
    F.StepsKeepInv(n.filter, F.EMPTY, Sequence(n.packet), UniqueId(n.packet));
    n.(filter := F.Hear(n.filter, Sequence(n.packet), UniqueId(n.packet)))
  }

  /** The filter and the join handlers, in the order of `_Handle_RX`. */
  function Reconsider(n: Node, now: uint32): (r: Node)
    requires Inv(n) && Genuine(Id(n), n.packet)
    ensures Inv(r) && Continues(n, r) && Steady(n, r) && r.relay == n.relay && r.state == n.state
    ensures Genuine(Id(r), r.packet)
  {
    hide F.CacheInv, R.RingInv, Q.QueueInv;
    HandleDeferredJoining(HandleConflictName(ExpireHandled(n), now), now)
  }

  /** The filter, the join handlers and the relay, in the order of `_Handle_RX`. */
  function Regard(n: Node, now: uint32): (r: Node)
    requires Inv(n) && Genuine(Id(n), n.packet)
    ensures Inv(r) && Continues(n, r) && Steady(n, r) && r.state == n.state
  {
    hide F.CacheInv, R.RingInv, Q.QueueInv;
    CacheForRepeat(Reconsider(n, now))
  }

  /** The first six request and response handlers, in the order of `_Handle_RX`. */
  function ServeDirectory(n: Node, env: Env): (r: Node)
    requires Inv(n)
    ensures Inv(r) && Calm(n, r) && r.registers == n.registers
  {
    hide F.CacheInv, R.RingInv, Q.QueueInv, HandlePing, HandlePong, HandleGetNumRegisters, HandleNumRegisters,
         HandleGetRegisterName, HandleRegisterName;
    var n1 := HandlePong(HandlePing(n, env.rxTime));
    var n2 := HandleNumRegisters(HandleGetNumRegisters(n1, env.rxTime));
    HandleRegisterName(HandleGetRegisterName(n2, env.rxTime), env.strayByte)
  }

  /** The last five request and response handlers, in the order of `_Handle_RX`. */
  function ServeRegisters(n: Node, env: Env): (r: Node)
    requires Inv(n)
    ensures Inv(r) && Calm(n, r) && r.presence == n.presence
  {
    hide F.CacheInv, R.RingInv, Q.QueueInv, HandleGetRegister, HandleRegisterValue, HandleSetRegister,
         HandleSetRegisterAck, HandleBroadcast;
    var n1 := HandleRegisterValue(HandleGetRegister(n, env.getReply, env.rxTime));
    var n2 := HandleSetRegisterAck(HandleSetRegister(n1, env.setReply, env.rxTime));
    HandleBroadcast(n2, env.behind)
  }

  /** All request and response handlers. Each works on the packet the one before left in the cache,
      which is the node's own reply once one has replied. */
  function Serve(n: Node, env: Env): (r: Node)
    requires Inv(n)
    ensures Inv(r) && Calm(n, r)
  {
    hide Inv, ServeDirectory, ServeRegisters;
    ServeRegisters(ServeDirectory(n, env), env)
  }

  /** `_Handle_RX` */
  function HandleRx(n: Node, env: Env): (r: Node)
    requires Inv(n)
    ensures Inv(r) && Continues(n, r)
  {
    hide F.CacheInv, R.RingInv, Q.QueueInv, Receive, SendConflict, Regard, Serve;
    match env.rx
    case NoData => n
    case Corrupt(bytes) => n.(packet := bytes)
    case Received(p) =>
      var n1 := Receive(n, p, env.rxTime);
      if SeesDuplicateId(n1) then SendConflict(n1, env.rxTime) else Serve(Regard(n1, env.rxTime), env)
  }

  /** The phases of an update behind `_Handle_RX`. */
  function UpdateTimers(n: Node, env: Env): (r: Node)
    requires Inv(n)
    ensures Inv(r) && Continues(n, r)
  {
    hide Inv, UpdateJoin, UpdatePing, CheckTimeouts;
    CheckTimeouts(UpdatePing(UpdateJoin(n, env.joinTime), env.pingTime), env.timeoutTime)
  }

  function UpdateRepeaters(n: Node, env: Env): (r: Node)
    requires Inv(n)
    ensures Inv(r) && Continues(n, r) && r.state == n.state && Steady(n, r)
  {
    hide Inv, UpdateRepeats, UpdateResponseRepeats, UpdateRequestRepeats;
    var n1 := UpdateRepeats(n, env.relayTime, env.relayDelay);
    var n2 := UpdateResponseRepeats(n1, env.responseTime, env.responseDelay, env.stray);
    UpdateRequestRepeats(n2, env.requestTime, env.requestDelay)
  }

  function UpdateAfterRx(n: Node, env: Env): (r: Node)
    requires Inv(n)
    ensures Inv(r) && Continues(n, r)
  {
    hide Inv, UpdateTimers, UpdateRepeaters;
    UpdateRepeaters(UpdateTimers(n, env), env)
  }

  /** `A7105_Mesh_Update` */
  function Update(n: Node, env: Env): (r: Node)
    requires Inv(n)
    ensures Inv(r) && Continues(n, r)
  {
    UpdateAfterRx(HandleRx(n, env), env)
  }
}
