/** The mesh node as an object updated in place: the fields of the source's node structure, and its
    functions as methods, each proved to do to the node's value what the model's function says. */
module MeshNodes {
  import opened Bytes
  import opened Packets
  import opened Registers
  import M = Model
  import O = Operations
  import J = Joining
  import F = Filter
  import R = Relay
  import Q = Responses
  import P = Presence

  /** The contents of the registers a node serves. */
  ghost function ContentsOf(rs: seq<MeshRegister>): (s: seq<Register>)
    requires forall r | r in rs :: r.Valid()
    reads rs, set r | r in rs :: r.data
    ensures |s| == |rs| && forall i | 0 <= i < |rs| :: s[i] == rs[i].Contents()
  {
    if rs == [] then [] else [rs[0].Contents()] + ContentsOf(rs[1..])
  }

  /** `_Filter_RegisterName`: the first register whose name the packet carries. */
  method FilterRegisterName(packet: array<byte>, rs: seq<MeshRegister>) returns (index: Option<nat>)
    requires packet.Length == 64 && forall r | r in rs :: r.Valid()
    ensures index == M.FindRegister(packet[..], ContentsOf(rs), 0)
  {
    hide NameMatches, ContentsOf;
    for x := 0 to |rs|
      invariant M.FindRegister(packet[..], ContentsOf(rs), 0) == M.FindRegister(packet[..], ContentsOf(rs), x)
    {
      var same := rs[x].MatchesName(packet);
      if same { return Some(x); }
    }
    index := None;
  }

  /** One of these registers is what a GET or SET request is about. */
  method HasOneOf(packet: array<byte>, rs: seq<MeshRegister>) returns (has: bool)
    requires packet.Length == 64 && forall r | r in rs :: r.Valid()
    ensures has <==> exists r | r in ContentsOf(rs) :: PacketHasRegister(packet[..], r)
  {
    hide NameMatches, ContentsOf;
    has := false;
    if packet[TYPE_AT] == PKT_GET_REGISTER || packet[TYPE_AT] == PKT_SET_REGISTER {
      for x := 0 to |rs|
        invariant forall i | 0 <= i < x :: !PacketHasRegister(packet[..], ContentsOf(rs)[i])
      {
        var same := rs[x].MatchesName(packet);
        if same {
          assert ContentsOf(rs)[x] in ContentsOf(rs);
          return true;
        }
      }
    }
  }

  /** The part of a repeated packet that its summary, and the registers, give back. */
  method RestoreFields(packet: array<byte>, rs: seq<MeshRegister>, s: Q.Summary, stray: Register)
    requires packet.Length == 64 && forall r | r in rs :: r.Valid() && r.data != packet
    requires Kind(packet[..]) == s.op && packet[DATA_AT] <= ARRAY_SIZE
    modifies packet
    ensures packet[..] == M.Filled(WithSequence(old(packet[..]), s.sequence), ContentsOf(rs), s, stray)
  {
    hide ContentsOf, RegisterToPacket;
    WriteByte(packet, HOP_SEQ_AT, s.sequence % 16 * 16 + packet[HOP_SEQ_AT] % 16);
    if s.op == PKT_NUM_REGISTERS {
      WriteByte(packet, DATA_AT, |rs| % 0x100);
    } else if s.op == PKT_REGISTER_NAME || s.op == PKT_REGISTER_VALUE {
      if s.data < |rs| {
        var _ := rs[s.data].ToPacket(packet, s.op == PKT_REGISTER_VALUE);
      } else {
        LoadPacket(packet, RegisterToPacket(packet[..], stray, s.op == PKT_REGISTER_VALUE));
      }
      if s.op == PKT_REGISTER_NAME { WriteByte(packet, NAME_AT + packet[DATA_AT], s.data); }
    } else if s.op == PKT_SET_REGISTER_ACK {
      WriteByte(packet, TARGET_AT, s.data);
    }
  }

  /** The register objects of a node and their buffers. */
  ghost function PartsOf(rs: seq<MeshRegister>): set<object> {
    (set r: MeshRegister | r in rs) + (set r: MeshRegister | r in rs :: r.data)
  }

  /** Registers that a node can be given. */
  ghost predicate Separate(rs: seq<MeshRegister>)
    reads rs
  {
    |rs| <= 255 && (forall r | r in rs :: r.Valid()) &&
    forall i, j | 0 <= i < j < |rs| :: rs[i] != rs[j] && rs[i].data != rs[j].data
  }

  method NewRegisters() returns (cache: MeshRegister, broadcast: MeshRegister)
    ensures fresh({cache, cache.data, broadcast, broadcast.data}) && cache != broadcast && cache.data != broadcast.data
    ensures cache.Valid() && broadcast.Valid() && cache.Contents() == broadcast.Contents() == Blank(false, false)
  {
    cache := new MeshRegister(false, false);
    broadcast := new MeshRegister(false, false);
  }

  /** A node on its own, with all its parts. */
  method NewNode(id: uint16, retransmitDelay: uint16, delay: uint16, regs: seq<MeshRegister>) returns (node: MeshNode)
    requires Separate(regs)
    ensures node.Valid() && node.registers == regs && fresh(node.OwnParts())
    ensures node.Value() == M.Init(id, retransmitDelay, delay, ContentsOf(regs))
  {
    hide M.Inv, F.CacheInv, R.RingInv, Q.QueueInv, F.HandledPacketCache.Contents, R.RelayRing.Contents,
         Q.ResponseRing.Contents, MeshRegister.Contents, ContentsOf, Blank, P.Nobody, R.EmptyRing, M.Init,
         MeshNode.Value, MeshNode.Valid, MeshNode.Repr;
    var filter := new F.HandledPacketCache();
    var table := new P.PresenceTable();
    var relay := new R.RelayRing();
    var queue := new Q.ResponseRing();
    var cache, broadcast := NewRegisters();
    node := new MeshNode(id, retransmitDelay, delay, regs, filter, table, relay, queue, cache, broadcast);
  }

  /** A new node, whatever its client does with it, is the value that the run makes of the initial one; and
      every operation begun has been reported once, or is the one under way. */
  method Operate(id: uint16, retransmitDelay: uint16, delay: uint16, regs: seq<MeshRegister>, actions: seq<O.Action>)
    returns (node: MeshNode)
    requires Separate(regs)
    requires (O.InitIsSound(id, retransmitDelay, delay, ContentsOf(regs));
              J.AllowedRun(M.Init(id, retransmitDelay, delay, ContentsOf(regs)), actions))
    modifies PartsOf(regs)
    ensures node.Valid() && fresh(node.OwnParts())
    ensures var start := M.Init(id, retransmitDelay, delay, old(ContentsOf(regs)));
            M.Inv(start) && J.AllowedRun(start, actions) && node.Value() == J.Run(start, actions)
    ensures var r := node.Value();
            |r.history.completions| == r.history.started - if M.Awaiting(r.state) then 1 else 0
  {
    hide M.Inv, MeshNode.Value, MeshNode.Shaped, MeshNode.OwnParts, ContentsOf, M.Init, J.Run, J.AllowedRun;
    ghost var contents := ContentsOf(regs);
    O.InitIsSound(id, retransmitDelay, delay, contents);
    J.ReportsFromTheStart(id, retransmitDelay, delay, contents, actions);
    node := NewNode(id, retransmitDelay, delay, regs);
    node.Run(actions);
  }

  class MeshNode {
    const uniqueId: uint16
    const registers: seq<MeshRegister>
    const packetCache: array<byte>
    const pendingRequestCache: array<byte>
    const handled: F.HandledPacketCache
    const presence: P.PresenceTable
    const repeats: R.RelayRing
    const responses: Q.ResponseRing
    const registerCache: MeshRegister
    const broadcastCache: MeshRegister
    const joinRetransmitDelay: uint16

    var state: M.State
    var nodeId: byte
    var randomDelay: uint16
    var joinFirstTxTime: uint32
    var requestSentTime: uint32
    var targetNodeId: byte
    var targetUniqueId: uint16
    var targetRegisterIndex: byte
    var sequence: nibble
    var lastRequestRepeatTime: uint32
    var requestRepeatCount: byte
    var operationCallback: M.Callback
    var blockingStatus: M.Status
    var numRegistersReturned: byte
    var responderNodeId: byte
    var responderUniqueId: uint16
    var listening: bool
    ghost var history: M.History

    /** All objects of the node; none is ever replaced. */
    ghost function Repr(): set<object> { OwnParts() + PartsOf(registers) }

    /** All but the registers, which are the client's. */
    ghost function OwnParts(): set<object> {
      {this, packetCache, pendingRequestCache, handled, handled.entries, presence, presence.table, repeats,
       repeats.slots, responses, responses.slots, registerCache, registerCache.data, broadcastCache, broadcastCache.data}
    }

    /** The byte buffers and register objects are all different. */
    ghost predicate Apart() {
      (presence.table as object) != repeats.slots &&
      packetCache != pendingRequestCache && registerCache != broadcastCache &&
      packetCache != registerCache.data && packetCache != broadcastCache.data &&
      pendingRequestCache != registerCache.data && pendingRequestCache != broadcastCache.data &&
      registerCache.data != broadcastCache.data &&
      (forall r | r in registers :: r != registerCache && r != broadcastCache && r.data != packetCache &&
         r.data != pendingRequestCache && r.data != registerCache.data && r.data != broadcastCache.data) &&
      (forall i, j | 0 <= i < j < |registers| :: registers[i] != registers[j] && registers[i].data != registers[j].data)
    }

    ghost predicate Shaped()
      reads Repr()
    {
      packetCache.Length == 64 && pendingRequestCache.Length == 64 && Apart() &&
      handled.Valid() && presence.Valid() && repeats.Valid() && responses.Valid() &&
      registerCache.Valid() && broadcastCache.Valid() && forall r | r in registers :: r.Valid()
    }

    ghost function RequestValue(): M.Request
      requires Shaped()
      reads Repr()
    {
      M.Request(requestSentTime, targetNodeId, targetUniqueId, targetRegisterIndex, sequence, pendingRequestCache[..],
                lastRequestRepeatTime, requestRepeatCount)
    }

    ghost function ClientValue(): M.Client
      requires Shaped()
      reads Repr()
    {
      M.Client(operationCallback, blockingStatus, numRegistersReturned, registerCache.Contents(), responderNodeId,
               responderUniqueId, listening, broadcastCache.Contents())
    }

    /** The state of the node as a value. */
    ghost function Value(): M.Node
      requires Shaped()
      reads Repr()
    {
      M.Node(state, uniqueId, nodeId, randomDelay, ContentsOf(registers), packetCache[..], RequestValue(),
             handled.Contents(), joinFirstTxTime, joinRetransmitDelay, presence.table[..], repeats.Contents(), responses.Contents(),
             ClientValue(), history)
    }

    ghost predicate Valid()
      reads Repr()
    {
      Shaped() && M.Inv(Value())
    }

    /** `A7105_Mesh_Initialize` and `A7105_Mesh_Set_Node_Registers`, over the fixed-size parts of the node. */
    constructor (id: uint16, retransmitDelay: uint16, delay: uint16, regs: seq<MeshRegister>,
                 filter: F.HandledPacketCache, table: P.PresenceTable, relay: R.RelayRing, queue: Q.ResponseRing,
                 cache: MeshRegister, broadcast: MeshRegister)
      requires |regs| <= 255 && forall r | r in regs ::
                 r.Valid() && r !in {cache, broadcast} && r.data !in {cache.data, broadcast.data}
      requires forall i, j | 0 <= i < j < |regs| :: regs[i] != regs[j] && regs[i].data != regs[j].data
      requires filter.Valid() && filter.Contents() == F.EMPTY_CACHE && table.Valid() && table.table[..] == P.Nobody()
      requires (table.table as object) != relay.slots && relay.Valid() && relay.Contents() == R.EmptyRing()
      requires queue.Valid() && queue.Contents() == Q.EMPTY_QUEUE
      requires cache.Valid() && broadcast.Valid() && cache != broadcast && cache.data != broadcast.data
      requires cache.Contents() == broadcast.Contents() == Blank(false, false)
      ensures Valid() && registers == regs
      ensures handled == filter && presence == table && repeats == relay && responses == queue
      ensures registerCache == cache && broadcastCache == broadcast && fresh(packetCache) && fresh(pendingRequestCache)
      ensures Value() == M.Init(id, retransmitDelay, delay, ContentsOf(regs))
    {
      hide M.Inv, F.CacheInv, R.RingInv, Q.QueueInv, F.HandledPacketCache.Contents, R.RelayRing.Contents,
           Q.ResponseRing.Contents, MeshRegister.Contents, ContentsOf, Blank, P.Nobody, R.EmptyRing, M.Calm,
           M.Continues, M.Steady, MeshNode.Repr;
      uniqueId, registers, joinRetransmitDelay, randomDelay := id, regs, retransmitDelay, delay;
      packetCache := new byte[64](i => 0);
      pendingRequestCache := new byte[64](i => 0);
      handled, presence, repeats, responses := filter, table, relay, queue;
      registerCache, broadcastCache := cache, broadcast;
      state, nodeId, joinFirstTxTime := M.NotJoined, 0, 0;
      requestSentTime, targetNodeId, targetUniqueId, targetRegisterIndex, sequence := 0, 0, 0, 0, 0;
      lastRequestRepeatTime, requestRepeatCount := 0, 0;
      operationCallback, blockingStatus, numRegistersReturned := M.NullCallback, M.NoStatus, 0;
      responderNodeId, responderUniqueId, listening := 0, 0, false;
      history := M.History([], {}, {}, [], 0, 0);
      new;
      assert packetCache[..] == ZeroPacket();
      assert pendingRequestCache[..] == ZeroPacket();
      M.InitKeepsInv(id, retransmitDelay, delay, ContentsOf(regs));
    }

    /** The fields that decisions depend on, as parts of the value. */
    lemma ValueIs()
      requires Valid()
      ensures var n := Value();
              packetCache.Length == 64 && n.packet == packetCache[..] && n.state == state && n.uniqueId == uniqueId &&
              n.nodeId == nodeId && n.request.targetNodeId == targetNodeId && n.request.targetUniqueId == targetUniqueId &&
              n.request.targetIndex == targetRegisterIndex && n.client.callback == operationCallback &&
              n.request.sentTime == requestSentTime && n.joinFirstTx == joinFirstTxTime &&
              n.joinRetransmitDelay == joinRetransmitDelay && |n.registers| == |registers| <= 255 &&
              n.client.listening == listening && n.randomDelay == randomDelay &&
              n.request.repeatCount == requestRepeatCount && n.request.repeatTime == lastRequestRepeatTime &&
              n.request.pending == pendingRequestCache[..]
    {
      hide ContentsOf;
    }

    // ---- parts, changed one at a time ----

    /** `_Update_Handled_Packet_Cache` */
    method UpdateHandledPacketCache()
      requires Valid()
      modifies handled, handled.entries
      ensures Valid()
      ensures Value() == M.ExpireHandled(old(Value()))
    {
      hide M.Inv, F.CacheInv, F.Hear, R.RingInv, Q.QueueInv, M.Calm, M.Continues, M.Steady, MeshNode.Repr;
      ghost var n := Value();
      handled.NoteReceived(Sequence(packetCache[..]), UniqueId(packetCache[..]));
      assert Value() == M.ExpireHandled(n);
    }

    /** `_Handling_Request` */
    method HandlingRequest()
      requires Valid()
      requires Kind(Value().packet) <= 1 || !F.Seen(Value().filter, M.HeaderOf(Value().packet))
      modifies handled, handled.entries
      ensures Valid()
      ensures Value() == M.MarkHandled(old(Value()))
    {
      hide M.Inv, F.CacheInv, F.Mark, R.RingInv, Q.QueueInv, M.Calm, M.Continues, M.Steady, MeshNode.Repr;
      ghost var n := Value();
      handled.MarkHandled(M.HeaderOf(packetCache[..]));
      assert Value() == M.MarkHandled(n);
    }

    method FilterPacket(kind: byte, asRequest: bool) returns (passes: bool)
      requires Valid()
      ensures Valid() && Value() == old(Value())
      ensures passes == if asRequest then M.Passes(Value(), kind) else M.Answers(Value(), kind)
    {
      hide M.Inv, F.CacheInv, R.RingInv, Q.QueueInv, ContentsOf, M.Calm, M.Continues, M.Steady, MeshNode.Repr;
      if packetCache[0] != kind { return false; }
      if asRequest {
        var seen := handled.HasSeen(M.HeaderOf(packetCache[..]));
        return !seen;
      }
      passes := (targetNodeId == 0 || packetCache[NODE_ID_AT] == targetNodeId) &&
                (targetUniqueId == 0 || UniqueId(packetCache[..]) == targetUniqueId);
    }

    /** `_Prep_Packet_Header` */
    method PrepPacketHeader(kind: byte)
      requires Valid()
      modifies packetCache
      ensures Valid()
      ensures Value() == old(Value()).(packet := M.HeaderFor(old(Value()), kind))
    {
      hide M.Inv, F.CacheInv, R.RingInv, Q.QueueInv, ContentsOf, M.Calm, M.Continues, M.Steady, MeshNode.Repr;
      ghost var n := Value();
      var target: byte := if kind == PKT_GET_NUM_REGISTERS || kind == PKT_GET_REGISTER_NAME then targetNodeId else 0;
      WriteHeader(packetCache, kind, sequence, nodeId, uniqueId, target);
      assert Value() == n.(packet := M.HeaderFor(n, kind));
      M.PacketIsFree(n, packetCache[..]);
    }

    /** `_Append_Response_Repeat` */
    method AppendResponseRepeat()
      requires Valid() && M.IsReply(Kind(Value().packet))
      modifies responses, responses.slots
      ensures Valid()
      ensures Value() == M.AppendResponse(old(Value()))
    {
      hide M.Inv, F.CacheInv, R.RingInv, Q.QueueInv, Q.Append, M.SummaryData, M.Calm, M.Continues, M.Steady,
           MeshNode.Repr;
      ghost var n := Value();
      var p: Packet := packetCache[..];
      var data := SummaryData();
      responses.AppendSummary(Kind(p), Sequence(p), data, M.SummaryHasData(Kind(p)));
      assert Value() == M.AppendResponse(n);
    }

    method SummaryData() returns (data: byte)
      requires Shaped()
      ensures data == M.SummaryData(packetCache[..], ContentsOf(registers))
    {
      hide M.FindRegister, ContentsOf, F.CacheInv, R.RingInv, Q.QueueInv;
      var op := packetCache[0];
      if op == PKT_REGISTER_NAME || op == PKT_REGISTER_VALUE {
        var index := FilterRegisterName(packetCache, registers);
        return if index.Some? then index.value % 0x100 else 255;
      }
      data := packetCache[TARGET_AT];
    }

    /** The radio sends a packet. */
    ghost method Transmit(origin: M.Origin, p: Packet)
      requires Valid() && M.Genuine(M.Id(Value()), p)
      modifies this`history
      ensures Valid()
      ensures Value() == M.Transmit(old(Value()), origin, p)
    {
      hide M.Inv, F.CacheInv, R.RingInv, Q.QueueInv, M.Genuine, ContentsOf, M.Calm, M.Continues, M.Steady,
           MeshNode.Repr;
      ghost var n := Value();
      history := history.(air := history.air + [M.Tx(origin, p)]);
      assert Value() == M.Transmit(n, origin, p);
    }

    method SetResponseTime(now: uint32)
      requires Valid()
      modifies responses`lastSent
      ensures Valid()
      ensures Value() == M.StampResponses(old(Value()), now)
    {
      hide M.Inv, F.CacheInv, R.RingInv, Q.QueueInv, Q.Stamp, ContentsOf, M.Calm, M.Continues, M.Steady,
           MeshNode.Repr;
      ghost var n := Value();
      responses.SetLastSent(now);
      assert Value() == M.StampResponses(n, now);
    }

    // ---- sending ----

    /** `_Send_Response` */
    method SendResponse(now: uint32)
      requires Valid() && M.Genuine(M.Id(Value()), Value().packet)
      modifies this`history, responses, responses.slots
      ensures Valid()
      ensures Value() == M.SendResponse(old(Value()), now)
    {
      hide M.Inv, MeshNode.Value, MeshNode.Shaped, MeshNode.Repr, M.Genuine, M.AppendResponse;
      ValueIs();
      if M.IsReply(packetCache[0]) { AppendResponseRepeat(); }
      Transmit(M.Originated, packetCache[..]);
      SetResponseTime(now);
    }

    method StampRequest(now: uint32)
      modifies this`requestSentTime, this`sequence, this`requestRepeatCount, this`lastRequestRepeatTime
      ensures requestSentTime == lastRequestRepeatTime == now && requestRepeatCount == 0
      ensures sequence == (old(sequence) + 1) % 16
    {
      requestSentTime := now;
      sequence := (sequence + 1) % 16;
      requestRepeatCount := 0;
      lastRequestRepeatTime := requestSentTime;
    }

    method NumberRequest(now: uint32)
      requires Valid() && M.Genuine(M.Id(Value()), Value().packet)
      modifies this`requestSentTime, this`sequence, this`requestRepeatCount, this`lastRequestRepeatTime, pendingRequestCache
      ensures Valid()
      ensures Value() == M.Numbered(old(Value()), now)
    {
      hide M.Inv, F.CacheInv, R.RingInv, Q.QueueInv, M.Genuine, ContentsOf, M.Calm, M.Continues, M.Steady,
           MeshNode.Repr;
      ghost var n := Value();
      StampRequest(now);
      if packetCache[0] != PKT_JOIN { CopyPacket(pendingRequestCache, packetCache); }
      assert Value() == M.Numbered(n, now);
    }

    /** `_Send_Request` */
    method SendRequest(now: uint32)
      requires Valid() && M.Genuine(M.Id(Value()), Value().packet)
      modifies this, pendingRequestCache, responses, responses.slots
      ensures Valid()
      ensures Value() == M.SendRequest(old(Value()), now)
    {
      hide M.Inv, MeshNode.Value, MeshNode.Shaped, MeshNode.Repr, M.Genuine, M.SendResponse, M.Calm, M.Steady;
      NumberRequest(now);
      SendResponse(now);
    }

    /** The new state of an operation's client side: `_Prep_Finishing_Callback`. */
    method PrepFinishingCallback(user: M.Callback)
      modifies this`operationCallback, this`blockingStatus
      ensures blockingStatus == M.NoStatus
      ensures operationCallback == if user == M.NullCallback then M.BlockingFinished else user
    {
      blockingStatus := M.NoStatus;
      operationCallback := if user == M.NullCallback then M.BlockingFinished else user;
    }

    /** The client's callback is called; the library's own records the status. */
    method Report(status: M.Status)
      requires Shaped()
      modifies this`blockingStatus, this`history
      ensures Shaped() && Value() == M.Report(old(Value()), status)
    {
      hide M.Inv, F.CacheInv, R.RingInv, Q.QueueInv, ContentsOf, M.Calm, M.Continues, M.Steady, MeshNode.Repr;
      ghost var n := Value();
      RunCallback(status);
      assert Value() == M.Report(n, status);
    }

    method RunCallback(status: M.Status)
      modifies this`blockingStatus, this`history
      ensures blockingStatus == if operationCallback == M.BlockingFinished then status else old(blockingStatus)
      ensures history == old(history).(completions := old(history).completions + [status])
    {
      if operationCallback == M.BlockingFinished { blockingStatus := status; }
      history := history.(completions := history.completions + [status]);
    }

    /** Back to idle, and the client is told. */
    method Complete(status: M.Status)
      requires Valid() && M.OnMesh(state) && state != M.Idle
      modifies this`state, this`blockingStatus, this`history
      ensures Valid() && Value() == M.Complete(old(Value()), status)
    {
      hide M.Inv, F.CacheInv, R.RingInv, Q.QueueInv, ContentsOf, M.Calm, M.Continues, M.Steady, MeshNode.Repr;
      ghost var n := Value();
      state := M.Idle;
      assert Value() == n.(state := M.Idle);
      Report(status);
      assert Value() == M.Complete(n, status);
    }

    // ---- joining ----

    method BeginJoining(id: byte, user: M.Callback, now: uint32)
      modifies this`state, this`nodeId, this`joinFirstTxTime, this`targetUniqueId, this`operationCallback, this`blockingStatus,
               this`history
      ensures state == M.Joining && nodeId == id && joinFirstTxTime == now && targetUniqueId == 0
      ensures blockingStatus == M.NoStatus && operationCallback == if user == M.NullCallback then M.BlockingFinished else user
      ensures history == old(history).(claims := old(history).claims + {id})
    {
      state := M.Joining;
      targetUniqueId := 0;
      nodeId := id;
      joinFirstTxTime := now;
      PrepFinishingCallback(user);
      history := history.(claims := history.claims + {id});
    }

    /** `A7105_Mesh_Join`, up to its wait for the outcome. */
    method Join(id: byte, user: M.Callback, now: uint32)
      requires Valid() && !M.OnMesh(state)
      modifies this, packetCache, pendingRequestCache, responses, responses.slots
      ensures Valid() && Value() == M.Join(old(Value()), id, user, now)
    {
      hide M.Inv, F.CacheInv, R.RingInv, Q.QueueInv, ContentsOf, M.SendRequest, M.HeaderFor, M.Genuine, M.Calm,
           M.Continues, M.Steady, MeshNode.Repr;
      ghost var n := Value();
      BeginJoining(id, user, now);
      assert Value() == M.Claiming(n, id, user, now);
      M.ClaimingKeepsInv(n, id, user, now);
      PrepPacketHeader(PKT_JOIN);
      M.OwnJoinIsGenuine(M.Claiming(n, id, user, now));
      SendRequest(now);
    }

    /** `_Update_Join` */
    method UpdateJoin(now: uint32)
      requires Valid()
      modifies this, packetCache, pendingRequestCache, responses, responses.slots
      ensures Valid() && Value() == M.UpdateJoin(old(Value()), now)
    {
      hide M.Inv, F.CacheInv, R.RingInv, Q.QueueInv, ContentsOf, M.SendRequest, M.HeaderFor, M.Genuine, M.Report,
           M.Calm, M.Continues, M.Steady, MeshNode.Repr;
      ghost var n := Value();
      if state != M.Joining { return; }
      if Elapsed(now, joinFirstTxTime) > M.JOIN_ACCEPT_DELAY {
        state := M.Idle;
        M.AcceptedKeepsInv(n);
        assert Value() == n.(state := M.Idle);
        Report(M.StatusOk);
        assert Value() == M.Accepted(n);
      } else if Elapsed(now, requestSentTime) > joinRetransmitDelay {
        PrepPacketHeader(PKT_JOIN);
        M.OwnJoinIsGenuine(n);
        SendRequest(now);
      }
    }

    /** `_Check_For_Node_ID_Conflicts` */
    method CheckForNodeIdConflicts(now: uint32) returns (found: bool)
      requires Valid()
      modifies this, packetCache, pendingRequestCache, responses, responses.slots
      ensures found == M.SeesDuplicateId(old(Value()))
      ensures Valid() && Value() == if found then M.SendConflict(old(Value()), now) else old(Value())
    {
      hide M.Inv, MeshNode.Value, MeshNode.Shaped, MeshNode.Repr, M.SendRequest, M.HeaderFor, M.Genuine, M.Calm,
           M.Continues, M.Steady;
      ValueIs();
      found := false;
      if state != M.NotJoined && state != M.Joining && packetCache[NODE_ID_AT] == nodeId &&
         UniqueId(packetCache[..]) != uniqueId
      {
        ghost var n := Value();
        PrepPacketHeader(PKT_CONFLICT_NAME);
        M.OwnConflictIsGenuine(n);
        SendRequest(now);
        found := true;
      }
    }

    /** `_Handle_Conflict_Name` */
    method HandleConflictName(now: uint32)
      requires Valid() && M.Genuine(M.Id(Value()), Value().packet)
      modifies this, packetCache, pendingRequestCache, responses, responses.slots, handled, handled.entries
      ensures Valid() && Value() == M.HandleConflictName(old(Value()), now)
    {
      hide M.Inv, MeshNode.Value, MeshNode.Shaped, MeshNode.Repr, M.Join, M.MarkHandled, M.Genuine, M.Calm,
           M.Continues, M.Steady;
      ValueIs();
      if packetCache[TYPE_AT] == PKT_CONFLICT_NAME && packetCache[NODE_ID_AT] == nodeId &&
         UniqueId(packetCache[..]) != uniqueId && state == M.Joining
      {
        HandlingRequest();
        Join((nodeId + 1) % 0x100, operationCallback, now);
      }
    }

    /** `_Handle_Deferred_Joining` */
    method HandleDeferredJoining(now: uint32)
      requires Valid() && M.Genuine(M.Id(Value()), Value().packet)
      modifies this, packetCache, pendingRequestCache, responses, responses.slots
      ensures Valid() && Value() == M.HandleDeferredJoining(old(Value()), now)
    {
      hide M.Inv, MeshNode.Value, MeshNode.Shaped, MeshNode.Repr, M.Join, M.Genuine, M.Calm, M.Continues, M.Steady;
      ValueIs();
      if state == M.Joining && packetCache[TYPE_AT] == PKT_JOIN && packetCache[NODE_ID_AT] == nodeId &&
         UniqueId(packetCache[..]) > uniqueId
      {
        Join((nodeId + 1) % 0x100, operationCallback, now);
      }
    }

    // ---- relaying and repeating ----

    method IsNotForRelay() returns (skip: bool)
      requires Valid()
      ensures skip == M.NotForRelay(Value())
    {
      hide M.Inv, F.CacheInv, R.RingInv, Q.QueueInv, ContentsOf, PacketHasRegister, M.Calm, M.Continues, M.Steady,
           MeshNode.Repr;
      var op, sender, id := packetCache[TYPE_AT], packetCache[NODE_ID_AT], UniqueId(packetCache[..]);
      if sender == nodeId && id == uniqueId { return true; }
      if (op == PKT_GET_NUM_REGISTERS || op == PKT_SET_REGISTER_ACK || op == PKT_GET_REGISTER_NAME) &&
         packetCache[TARGET_AT] == nodeId
      {
        return true;
      }
      if ((state == M.GettingNumRegisters && op == PKT_NUM_REGISTERS) ||
          (state == M.GettingRegisterName && op == PKT_REGISTER_NAME)) &&
         sender == targetNodeId && (targetUniqueId == 0 || id == targetUniqueId)
      {
        return true;
      }
      skip := HasOneOf(packetCache, registers);
    }

    /** `_Cache_Packet_For_Repeat` */
    method CachePacketForRepeat()
      requires Valid() && M.Genuine(M.Id(Value()), Value().packet)
      modifies repeats, repeats.slots
      ensures Valid() && Value() == M.CacheForRepeat(old(Value()))
    {
      hide M.Inv, F.CacheInv, Q.QueueInv, ContentsOf, M.NotForRelay, R.Offer, R.Fifo, R.Remembers, R.NoEcho, M.Calm,
           M.Continues, M.Steady, MeshNode.Repr;
      ghost var n := Value();
      if state == M.NotJoined || state == M.Joining { return; }
      var skip := IsNotForRelay();
      if skip { return; }
      repeats.OfferPacket(packetCache[..]);
      assert Value() == M.CacheForRepeat(n);
    }

    /** `_Pop_Repeat` and the hop increment. */
    method PopRepeat(now: uint32)
      requires Shaped() && repeats.size > 0
      modifies repeats, repeats.slots
      ensures Shaped() && Value() == old(Value()).(relay := R.SendOn(old(repeats.Contents()), now))
    {
      hide M.Inv, F.CacheInv, R.Fifo, R.Remembers, R.NoEcho, Q.QueueInv, ContentsOf, R.SendOn, R.Outgoing,
           MeshNode.Repr;
      var packet := repeats.PopForRelay(now);
    }

    /** `_Update_Repeats` */
    method UpdateRepeats(now: uint32, delay: uint16)
      requires Valid()
      modifies this`randomDelay, this`history, repeats, repeats.slots
      ensures Valid() && Value() == M.UpdateRepeats(old(Value()), now, delay)
    {
      hide M.Inv, F.CacheInv, R.RingInv, Q.QueueInv, ContentsOf, R.SendOn, R.Outgoing, M.Genuine, M.Calm, M.Continues,
           M.Steady, MeshNode.Repr;
      ghost var n := Value();
      if state != M.NotJoined && state != M.Joining && repeats.size > 0 && Elapsed(now, repeats.lastSent) > randomDelay {
        M.OutgoingIsGenuine(n);
        Transmit(M.Relayed, R.Outgoing(repeats.Contents()));
        PopRepeat(now);
        SetRandomDelay(delay);
        assert Value() == M.UpdateRepeats(n, now, delay);
      }
    }

    /** `_Response_Repeat_Cache_Packet_Prep` */
    method ResponseRepeatCachePacketPrep(s: Q.Summary, stray: Register)
      requires Valid() && (s.op == 0 || M.IsReply(s.op))
      modifies packetCache
      ensures Valid() && Value() == old(Value()).(packet := M.Rebuilt(old(Value()), s, stray))
    {
      hide M.Inv, F.CacheInv, R.RingInv, Q.QueueInv, ContentsOf, M.Filled, M.Calm, M.Continues, M.Steady,
           MeshNode.Repr;
      ghost var n := Value();
      PrepPacketHeader(s.op);
      RestoreFields(packetCache, registers, s, stray);
      M.PacketIsFree(n, packetCache[..]);
      assert Value() == n.(packet := M.Rebuilt(n, s, stray));
    }

    /** Sends the response rebuilt from its summary. */
    method SendRepeat(s: Q.Summary, stray: Register)
      requires Valid() && (s.op == 0 || M.IsReply(s.op))
      modifies this`history, packetCache
      ensures Valid()
      ensures var n, p := old(Value()), M.Rebuilt(old(Value()), s, stray);
              Value() == n.(packet := p, history := n.history.(air := n.history.air + [M.Tx(M.Repeated, p)]))
    {
      hide M.Inv, F.CacheInv, R.RingInv, Q.QueueInv, ContentsOf, M.Rebuilt, M.Genuine, M.Calm, M.Steady,
           MeshNode.Repr, F.HandledPacketCache.Contents, R.RelayRing.Contents, Q.ResponseRing.Contents,
           MeshRegister.Contents, M.Continues;
      ResponseRepeatCachePacketPrep(s, stray);
      M.OtherIsGenuine(M.Id(Value()), packetCache[..]);
      Transmit(M.Repeated, packetCache[..]);
    }

    method CountResponseRepeat(element: nat, now: uint32)
      requires Shaped() && responses.size > 0 && element == Q.Slot(responses.start, Q.Chosen(responses.Contents()))
      modifies responses, responses.slots
      ensures Shaped() && Value() == old(Value()).(responses := Q.Repeat(old(responses.Contents()), now))
    {
      hide M.Inv, F.CacheInv, R.RingInv, Q.QueueInv, ContentsOf, Q.Repeat, Q.Chosen, MeshNode.Repr, M.Calm,
           M.Continues, M.Steady;
      responses.CountRepeat(element, now);
    }

    method SetRandomDelay(delay: uint16)
      requires Shaped()
      modifies this`randomDelay
      ensures Shaped() && Value() == old(Value()).(randomDelay := delay)
    {
      hide M.Inv, F.CacheInv, R.RingInv, Q.QueueInv, ContentsOf, MeshNode.Repr, M.Calm, M.Continues, M.Steady;
      randomDelay := delay;
    }

    method SelectResponse() returns (element: nat)
      requires Shaped() && responses.size > 0
      ensures element < responses.slots.Length
      ensures element == Q.Slot(responses.start, Q.Chosen(responses.Contents()))
      ensures responses.slots[element] == Q.Live(responses.Contents(), Q.Chosen(responses.Contents()))
    {
      hide ContentsOf, Q.Chosen;
      element := responses.SelectSlot();
    }

    /** `_Update_Response_Repeats` */
    method UpdateResponseRepeats(now: uint32, delay: uint16, stray: Register)
      requires Valid()
      modifies this`randomDelay, this`history, packetCache, responses, responses.slots
      ensures Valid() && Value() == M.UpdateResponseRepeats(old(Value()), now, delay, stray)
    {
      hide M.Inv, F.CacheInv, R.RingInv, Q.QueueInv, ContentsOf, M.Rebuilt, Q.Repeat, Q.Chosen, Q.Live, M.Genuine,
           M.Calm, M.Steady, MeshNode.Repr, M.Continues;
      ghost var n := Value();
      if state != M.NotJoined && responses.size > 0 && Elapsed(now, responses.lastSent) > randomDelay {
        M.RepeatsAreSound(n);
        var element := SelectResponse();
        SendRepeat(responses.slots[element], stray);
        CountResponseRepeat(element, now);
        SetRandomDelay(delay);
        assert Value() == M.UpdateResponseRepeats(n, now, delay, stray);
      }
    }

    method CountRequestFields(now: uint32, delay: uint16)
      requires requestRepeatCount < M.REQUEST_MAX_REPEAT
      modifies this`randomDelay, this`lastRequestRepeatTime, this`requestRepeatCount
      ensures randomDelay == delay && lastRequestRepeatTime == now && requestRepeatCount == old(requestRepeatCount) + 1
    {
      randomDelay := delay;
      lastRequestRepeatTime := now;
      requestRepeatCount := requestRepeatCount + 1;
    }

    /** One more repeat of the request is counted. */
    method CountRequestRepeat(now: uint32, delay: uint16)
      requires Shaped() && requestRepeatCount < M.REQUEST_MAX_REPEAT
      modifies this`randomDelay, this`lastRequestRepeatTime, this`requestRepeatCount
      ensures Shaped()
      ensures var n := old(Value());
              Value() == n.(randomDelay := delay,
                            request := n.request.(repeatTime := now, repeatCount := n.request.repeatCount + 1))
    {
      hide M.Inv, F.CacheInv, R.RingInv, Q.QueueInv, ContentsOf, MeshNode.Repr;
      CountRequestFields(now, delay);
    }

    /** `_Update_Request_Repeats` */
    method UpdateRequestRepeats(now: uint32, delay: uint16)
      requires Valid()
      modifies this`randomDelay, this`lastRequestRepeatTime, this`requestRepeatCount, this`history
      ensures Valid() && Value() == M.UpdateRequestRepeats(old(Value()), now, delay)
    {
      hide M.Inv, MeshNode.Value, MeshNode.Repr, MeshNode.Shaped, M.Genuine, M.Calm, M.Steady;
      ghost var n := Value();
      ValueIs();
      if state != M.NotJoined && state != M.Joining && state != M.Idle &&
         requestRepeatCount < M.REQUEST_MAX_REPEAT && Elapsed(now, lastRequestRepeatTime) > randomDelay
      {
        M.RepeatsAreSound(n);
        Transmit(M.Repeated, n.request.pending);
        CountRequestRepeat(now, delay);
        assert Value() == M.UpdateRequestRepeats(n, now, delay);
      }
    }

    // ---- requests and responses about nodes and register names ----

    /** Writes the prepared packet's `index`-th byte. */
    method WritePacketByte(index: nat, b: byte)
      requires Valid() && index < 64
      modifies packetCache
      ensures Valid() && Value() == old(Value()).(packet := old(Value()).packet[index := b])
    {
      hide M.Inv, F.CacheInv, R.RingInv, Q.QueueInv, ContentsOf, MeshNode.Repr;
      ghost var n := Value();
      WriteByte(packetCache, index, b);
      M.PacketIsFree(n, packetCache[..]);
      assert Value() == n.(packet := n.packet[index := b]);
    }

    /** Sends the prepared reply. */
    method SendReply(now: uint32)
      requires Valid() && M.IsReply(Kind(Value().packet))
      modifies this`history, responses, responses.slots
      ensures Valid() && Value() == M.SendResponse(old(Value()), now)
    {
      hide M.Inv, MeshNode.Value, MeshNode.Shaped, MeshNode.Repr, M.Genuine, M.SendResponse;
      ValueIs();
      M.OtherIsGenuine(M.Id(Value()), packetCache[..]);
      SendResponse(now);
    }

    /** `_Handle_Ping` */
    method HandlePing(now: uint32)
      requires Valid()
      modifies this`history, packetCache, handled, handled.entries, responses, responses.slots
      ensures Valid() && Value() == M.HandlePing(old(Value()), now)
    {
      hide M.Inv, MeshNode.Value, MeshNode.Shaped, M.SendResponse, M.Calm, M.Steady, F.Mark, Header, MeshNode.Repr;
      ValueIs();
      if state != M.NotJoined && state != M.Joining && uniqueId != UniqueId(packetCache[..]) {
        var passes := FilterPacket(PKT_PING, true);
        if passes {
          HandlingRequest();
          PrepPacketHeader(PKT_PONG);
          SendReply(now);
        }
      }
    }

    method RecordPresence(id: byte)
      requires Valid()
      modifies presence.table
      ensures Valid() && Value() == old(Value()).(presence := P.WithPresent(old(Value()).presence, id))
    {
      hide F.CacheInv, R.RingInv, Q.QueueInv, ContentsOf, MeshNode.Repr, M.GenuineAir, M.GenuineSlots, M.Genuine,
           M.RepliesOnly;
      ghost var n := Value();
      presence.Record(id);
      assert Value() == n.(presence := P.WithPresent(n.presence, id));
    }

    /** `_Handle_Pong` */
    method HandlePong()
      requires Valid()
      modifies presence.table
      ensures Valid() && Value() == M.HandlePong(old(Value()))
    {
      hide M.Inv, MeshNode.Value, MeshNode.Shaped, MeshNode.Repr, M.Calm, P.WithPresent;
      ValueIs();
      if state == M.Pinging {
        var answers := FilterPacket(PKT_PONG, false);
        if answers { RecordPresence(packetCache[NODE_ID_AT]); }
      }
    }

    /** `_Handle_GetNumRegisters` */
    method HandleGetNumRegisters(now: uint32)
      requires Valid()
      modifies this`history, packetCache, handled, handled.entries, responses, responses.slots
      ensures Valid() && Value() == M.HandleGetNumRegisters(old(Value()), now)
    {
      hide M.Inv, MeshNode.Value, MeshNode.Shaped, MeshNode.Repr, M.SendResponse, M.Calm, M.Steady, F.Mark, Header;
      ValueIs();
      if state != M.NotJoined && state != M.Joining {
        var passes := FilterPacket(PKT_GET_NUM_REGISTERS, true);
        if passes && packetCache[TARGET_AT] == nodeId {
          HandlingRequest();
          PrepPacketHeader(PKT_NUM_REGISTERS);
          WritePacketByte(DATA_AT, |registers|);
          SendReply(now);
        }
      }
    }

    /** Who answered, for the client. */
    method RecordResponder()
      requires Valid()
      modifies this`responderNodeId, this`responderUniqueId
      ensures Valid() && Value() == old(Value()).(client := M.FromResponder(old(Value())))
    {
      hide M.Inv, F.CacheInv, R.RingInv, Q.QueueInv, ContentsOf, MeshNode.Repr;
      ghost var n := Value();
      responderNodeId, responderUniqueId := packetCache[NODE_ID_AT], UniqueId(packetCache[..]);
      M.ClientIsFree(n, M.FromResponder(n));
      assert Value() == n.(client := M.FromResponder(n));
    }

    method RecordNumRegisters(count: byte)
      requires Valid()
      modifies this`numRegistersReturned
      ensures Valid() && Value() == old(Value()).(client := old(Value()).client.(numRegisters := count))
    {
      hide M.Inv, F.CacheInv, R.RingInv, Q.QueueInv, ContentsOf, MeshNode.Repr;
      ghost var n := Value();
      numRegistersReturned := count;
      M.ClientIsFree(n, n.client.(numRegisters := count));
      assert Value() == n.(client := n.client.(numRegisters := count));
    }

    /** `_Handle_NumRegisters` */
    method HandleNumRegisters()
      requires Valid()
      modifies this
      ensures Valid() && Value() == M.HandleNumRegisters(old(Value()))
    {
      hide M.Inv, MeshNode.Value, MeshNode.Shaped, MeshNode.Repr, M.Complete, M.Calm, M.Steady;
      ValueIs();
      if state == M.GettingNumRegisters {
        var answers := FilterPacket(PKT_NUM_REGISTERS, false);
        if answers {
          var count := packetCache[DATA_AT];
          RecordResponder();
          RecordNumRegisters(count);
          Complete(M.StatusOk);
        }
      }
    }

    /** The reply to a request for the name of register `index`. */
    method PrepNameReply(index: byte)
      requires Valid()
      modifies packetCache
      ensures Valid() && Value() == old(Value()).(packet := M.NameReply(old(Value()), index))
    {
      hide M.Inv, F.CacheInv, R.RingInv, Q.QueueInv, ContentsOf, MeshNode.Repr, RegisterToPacket, M.HeaderFor;
      ghost var n := Value();
      PrepPacketHeader(PKT_REGISTER_NAME);
      if index < |registers| {
        var _ := registers[index].ToPacket(packetCache, false);
        WriteByte(packetCache, NAME_AT + packetCache[DATA_AT], index);
      }
      M.PacketIsFree(n, packetCache[..]);
      assert Value() == n.(packet := M.NameReply(n, index));
    }

    /** `_Handle_GetRegisterName` */
    method HandleGetRegisterName(now: uint32)
      requires Valid()
      modifies this`history, packetCache, handled, handled.entries, responses, responses.slots
      ensures Valid() && Value() == M.HandleGetRegisterName(old(Value()), now)
    {
      hide M.Inv, MeshNode.Value, MeshNode.Shaped, MeshNode.Repr, M.SendResponse, M.Calm, M.Steady, F.Mark,
           M.NameReply;
      ValueIs();
      if state != M.NotJoined && state != M.Joining {
        var passes := FilterPacket(PKT_GET_REGISTER_NAME, true);
        if passes && packetCache[TARGET_AT] == nodeId {
          ghost var n := Value();
          var index := packetCache[REG_INDEX_AT];
          HandlingRequest();
          NameReplyIgnoresFilter(n, Value(), index);
          PrepNameReply(index);
          SendReply(now);
        }
      }
    }

    /** Reads the packet's register into the client's cache. */
    method LoadRegisterCache(withValue: bool) returns (converted: bool)
      requires Valid()
      modifies registerCache, registerCache.data
      ensures converted == Decodable(old(Value()).packet, withValue)
      ensures Valid()
      ensures var n := old(Value());
              Value() == n.(client := n.client.(register := PacketToRegister(n.packet, n.client.register, withValue)))
    {
      hide M.Inv, F.CacheInv, R.RingInv, Q.QueueInv, MeshNode.Repr, PacketToRegister, Decodable;
      ghost var n := Value();
      converted := registerCache.FromPacket(packetCache, withValue);
      ghost var c := n.client.(register := PacketToRegister(n.packet, n.client.register, withValue));
      M.ClientIsFree(n, c);
      assert Value() == n.(client := c);
    }

    /** `_Handle_RegisterName` */
    method HandleRegisterName(strayByte: byte)
      requires Valid()
      modifies this, registerCache, registerCache.data
      ensures Valid() && Value() == M.HandleRegisterName(old(Value()), strayByte)
    {
      hide M.Inv, MeshNode.Value, MeshNode.Shaped, MeshNode.Repr, M.Complete, M.Calm, M.Steady, PacketToRegister,
           Decodable;
      ValueIs();
      if state == M.GettingRegisterName {
        var answers := FilterPacket(PKT_REGISTER_NAME, false);
        if answers && targetRegisterIndex == RegisterIndex(packetCache[..], strayByte) {
          var converted := LoadRegisterCache(false);
          RecordResponder();
          Complete(if converted then M.StatusOk else M.InvalidRegisterIndex);
        }
      }
    }

    // ---- registers ----

    lemma RegisterIs(i: nat)
      requires Valid() && i < |registers|
      ensures Value().registers[i] == registers[i].Contents()
      ensures Value().registers[i].hasSetCallback == registers[i].hasSetCallback
      ensures Value().registers[i].hasGetCallback == registers[i].hasGetCallback
    {
      hide ContentsOf;
    }

    method FindRegister() returns (index: Option<nat>)
      requires Valid()
      ensures Valid() && Value() == old(Value())
      ensures index == M.FindRegister(Value().packet, Value().registers, 0)
    {
      hide M.Inv, F.CacheInv, R.RingInv, Q.QueueInv, ContentsOf, M.FindRegister;
      index := FilterRegisterName(packetCache, registers);
    }

    /** A callback leaves these contents in register `i`. */
    method OverwriteRegister(i: nat, left: Register)
      requires Valid() && i < |registers|
      modifies registers[i], registers[i].data
      ensures Valid()
      ensures var n := old(Value());
              Value() == n.(registers := n.registers[i := M.Rewritten(n.registers[i], left)])
    {
      hide M.Inv, F.CacheInv, R.RingInv, Q.QueueInv, ContentsOf, MeshNode.Repr, F.HandledPacketCache.Contents,
           R.RelayRing.Contents, Q.ResponseRing.Contents, F.HandledPacketCache.Valid, R.RelayRing.Valid,
           Q.ResponseRing.Valid;
      ghost var n := Value();
      registers[i].Overwrite(left);
      ghost var rs := n.registers[i := M.Rewritten(n.registers[i], left)];
      assert ContentsOf(registers) == rs;
      M.RegistersAreFree(n, rs);
      assert Value() == n.(registers := rs);
    }

    /** Reads the packet's register into register `i`. */
    method LoadRegister(i: nat) returns (converted: bool)
      requires Valid() && i < |registers|
      modifies registers[i], registers[i].data
      ensures Valid() && converted == Decodable(old(Value()).packet, true)
      ensures var n := old(Value());
              Value() == n.(registers := n.registers[i := PacketToRegister(n.packet, n.registers[i], true)])
    {
      hide M.Inv, F.CacheInv, R.RingInv, Q.QueueInv, ContentsOf, MeshNode.Repr, PacketToRegister, Decodable;
      ghost var n := Value();
      converted := registers[i].FromPacket(packetCache, true);
      ghost var rs := n.registers[i := PacketToRegister(n.packet, n.registers[i], true)];
      assert ContentsOf(registers) == rs;
      M.RegistersAreFree(n, rs);
      assert Value() == n.(registers := rs);
    }

    method ClearRegisterError(i: nat)
      requires Valid() && i < |registers|
      modifies registers[i]
      ensures Valid()
      ensures var n := old(Value());
              Value() == n.(registers := n.registers[i := n.registers[i].(errorSet := false)])
    {
      hide M.Inv, F.CacheInv, R.RingInv, Q.QueueInv, ContentsOf, MeshNode.Repr;
      ghost var n := Value();
      registers[i].ClearError();
      ghost var rs := n.registers[i := n.registers[i].(errorSet := false)];
      assert ContentsOf(registers) == rs;
      M.RegistersAreFree(n, rs);
      assert Value() == n.(registers := rs);
    }

    /** The packet of a reply with the value of register `i`. */
    method PrepValueReply(i: nat)
      requires Valid() && i < |registers|
      modifies packetCache
      ensures Valid()
      ensures var n := old(Value());
              Value() == n.(packet := RegisterToPacket(M.HeaderFor(n, PKT_REGISTER_VALUE), n.registers[i], true))
    {
      hide M.Inv, F.CacheInv, R.RingInv, Q.QueueInv, ContentsOf, MeshNode.Repr, RegisterToPacket, M.HeaderFor;
      ghost var n := Value();
      PrepPacketHeader(PKT_REGISTER_VALUE);
      var _ := registers[i].ToPacket(packetCache, true);
      M.PacketIsFree(n, packetCache[..]);
      assert Value() == n.(packet := RegisterToPacket(M.HeaderFor(n, PKT_REGISTER_VALUE), n.registers[i], true));
    }

    /** `_Handle_GetRegister` */
    method HandleGetRegister(getReply: Register, now: uint32)
      requires Valid()
      modifies Repr()
      ensures Valid() && Value() == M.HandleGetRegister(old(Value()), getReply, now)
    {
      hide M.Inv, MeshNode.Value, MeshNode.Shaped, M.SendResponse, M.Calm, M.Steady, F.Mark, RegisterToPacket,
           M.FindRegister, Header, M.HandleGetRegister, M.HeaderFor, M.Genuine;
      ValueIs();
      if state == M.NotJoined || state == M.Joining {
        GetOfUnknown(Value(), getReply, now);
      } else {
        var passes := FilterPacket(PKT_GET_REGISTER, true);
        if !passes {
          GetOfUnknown(Value(), getReply, now);
        } else {
          var index := FindRegister();
          if index.None? {
            GetOfUnknown(Value(), getReply, now);
            return;
          }
          var i := index.value;
          GetSteps(Value(), i, getReply, now);
          RegisterIs(i);
          HandlingRequest();
          if registers[i].hasGetCallback { OverwriteRegister(i, getReply); }
          PrepValueReply(i);
          SendReply(now);
        }
      }
    }

    /** `_Handle_RegisterValue` */
    method HandleRegisterValue()
      requires Valid()
      modifies this, registerCache, registerCache.data
      ensures Valid() && Value() == M.HandleRegisterValue(old(Value()))
    {
      hide M.Inv, MeshNode.Value, MeshNode.Shaped, MeshNode.Repr, M.Complete, M.Calm, M.Steady, PacketToRegister,
           Decodable, NameMatches;
      ValueIs();
      if state == M.GettingRegister {
        var answers := FilterPacket(PKT_REGISTER_VALUE, false);
        if answers {
          var same := CacheMatches();
          if !same { return; }
          var converted := LoadRegisterCache(true);
          RecordResponder();
          Complete(if converted then M.StatusOk else M.InvalidRegisterReturned);
        }
      }
    }

    method CacheMatches() returns (same: bool)
      requires Valid()
      ensures Valid() && Value() == old(Value())
      ensures same == NameMatches(Value().packet, Value().client.register)
    {
      hide M.Inv, F.CacheInv, R.RingInv, Q.QueueInv, ContentsOf, NameMatches;
      same := registerCache.MatchesName(packetCache);
    }

    /** An error text is put into the register cache. */
    method CacheError(text: seq<byte>)
      requires Valid()
      modifies registerCache, registerCache.data
      ensures Valid()
      ensures var n := old(Value());
              Value() == n.(client := n.client.(register := WithError(n.client.register, text)))
    {
      hide M.Inv, F.CacheInv, R.RingInv, Q.QueueInv, ContentsOf, MeshNode.Repr, WithError;
      ghost var n := Value();
      registerCache.SetError(text);
      ghost var c := n.client.(register := WithError(n.client.register, text));
      M.ClientIsFree(n, c);
      assert Value() == n.(client := c);
    }

    method CacheText(text: string)
      requires Valid()
      modifies registerCache.data
      ensures Valid()
      ensures var n := old(Value());
              Value() == n.(client := n.client.(register := M.WithText(n.client.register, text)))
    {
      hide M.Inv, F.CacheInv, R.RingInv, Q.QueueInv, ContentsOf, MeshNode.Repr, StrNCpy, Patch;
      ghost var n := Value();
      registerCache.CopyText(M.Text(text));
      ghost var c := n.client.(register := M.WithText(n.client.register, text));
      M.ClientIsFree(n, c);
      assert Value() == n.(client := c);
    }

    method ClearCache()
      requires Valid()
      modifies registerCache, registerCache.data
      ensures Valid()
      ensures var n := old(Value());
              Value() == n.(client := n.client.(register := Blank(false, false)))
    {
      hide M.Inv, F.CacheInv, R.RingInv, Q.QueueInv, ContentsOf, MeshNode.Repr, Blank;
      ghost var n := Value();
      registerCache.Initialize(false, false);
      ghost var c := n.client.(register := Blank(false, false));
      M.ClientIsFree(n, c);
      assert Value() == n.(client := c);
    }

    lemma CacheIs()
      requires Valid()
      ensures Value().client.register == registerCache.Contents()
      ensures Value().client.register.errorSet == registerCache.errorSet
    {
    }

    /** The set-callback of register `i` runs, and its verdict is looked at. */
    method RunSetCallback(i: nat, reply: M.SetReply) returns (error: bool)
      requires Valid() && i < |registers|
      modifies registers[i], registers[i].data, registerCache, registerCache.data
      ensures Valid()
      ensures var n := old(Value());
              var o := M.SetByCallback(n.registers[i], n.client.register, reply);
              error == o.error &&
              Value() == n.(registers := n.registers[i := o.register], client := n.client.(register := o.cache))
    {
      hide M.Inv, MeshNode.Value, MeshNode.Shaped, MeshNode.Repr, WithError, M.WithText;
      error := false;
      ValueIs();
      if reply.error.Some? { CacheError(reply.error.value); }
      OverwriteRegister(i, reply.register);
      if reply.status == M.InvalidRegisterValue {
        error := true;
        CacheIs();
        if !registerCache.errorSet { CacheText("Unknown Error (not set)"); }
      } else if reply.status != M.StatusOk && reply.status != M.AutoSetRegister {
        CacheText("Remote Callback Error");
      }
    }

    /** The packet's value is stored in register `i`, or an error recorded. */
    method StoreValue(i: nat, error: bool) returns (failed: bool)
      requires Valid() && i < |registers|
      modifies registers[i], registers[i].data, registerCache.data
      ensures Valid()
      ensures var n := old(Value());
              var o := M.SetFromPacket(n.packet, M.SetOutcome(n.registers[i], n.client.register, error));
              failed == o.error &&
              Value() == n.(registers := n.registers[i := o.register], client := n.client.(register := o.cache))
    {
      hide M.Inv, MeshNode.Value, MeshNode.Shaped, MeshNode.Repr, PacketToRegister, M.WithText, Decodable;
      ghost var n := Value();
      ValueIs();
      failed := error;
      DecodeSteps(n.packet, n.registers[i], true);
      var converted := LoadRegister(i);
      if !converted {
        assert n.registers[i := n.registers[i]] == n.registers;
        CacheText("Invalid Value Size");
        failed := true;
      }
    }

    /** All a SET request does before it is acknowledged. */
    method ApplySet(i: nat, reply: M.SetReply) returns (error: bool)
      requires Valid() && i < |registers|
      modifies registers[i], registers[i].data, registerCache, registerCache.data
      ensures Valid()
      ensures var n := old(Value());
              var o := M.SetRequested(n.packet, n.registers[i], n.client.register, reply);
              error == o.error &&
              Value() == n.(registers := n.registers[i := o.register], client := n.client.(register := o.cache))
    {
      hide M.Inv, MeshNode.Value, MeshNode.Shaped, MeshNode.Repr, M.SetFromPacket;
      ghost var n := Value();
      ValueIs();
      RegisterIs(i);
      error := false;
      var hasCallback := registers[i].hasSetCallback;
      if hasCallback { error := RunSetCallback(i, reply); }
      if !hasCallback || reply.status == M.AutoSetRegister { error := StoreValue(i, error); }
    }

    /** The acknowledgement, with the error text if there is one. */
    method PrepAck(target: byte, error: bool)
      requires Valid()
      modifies packetCache
      ensures Valid()
      ensures var n := old(Value());
              Value() == n.(packet := M.SetAck(n, target, M.SetOutcome(n.client.register, n.client.register, error)))
    {
      hide M.Inv, F.CacheInv, R.RingInv, Q.QueueInv, ContentsOf, MeshNode.Repr, M.HeaderFor, StrNCpy, Patch;
      ghost var n := Value();
      PrepPacketHeader(PKT_SET_REGISTER_ACK);
      WriteByte(packetCache, TARGET_AT, target);
      if error { WriteBytes(packetCache, ERR_MSG_AT, StrNCpy(registerCache.data[..], PART_SIZE - 1)); }
      M.PacketIsFree(n, packetCache[..]);
      assert Value() == n.(packet := M.SetAck(n, target, M.SetOutcome(n.client.register, n.client.register, error)));
    }

    /** `_Handle_SetRegister` */
    method HandleSetRegister(reply: M.SetReply, now: uint32)
      requires Valid()
      modifies Repr()
      ensures Valid() && Value() == M.HandleSetRegister(old(Value()), reply, now)
    {
      hide M.Inv, MeshNode.Value, MeshNode.Shaped, M.HandleSetRegister, M.SetRequested, M.SetAck, M.FindRegister,
           M.Genuine, M.SendResponse, M.Calm, M.Steady, F.Mark;
      ghost var n := Value();
      ValueIs();
      if state == M.NotJoined || state == M.Joining {
        SetOfUnknown(n, reply, now);
        return;
      }
      var passes := FilterPacket(PKT_SET_REGISTER, true);
      var index := FindRegister();
      if !passes || index.None? {
        SetOfUnknown(n, reply, now);
        return;
      }
      var i, target := index.value, packetCache[NODE_ID_AT];
      SetSteps(n, i, reply, now);
      var error := ApplySet(i, reply);
      HandlingRequest();
      PrepAck(target, error);
      if error { ClearCache(); }
      SendReply(now);
      ClearRegisterError(i);
    }

    /** The error text of an acknowledgement is kept for the client. */
    method TakeErrorText()
      requires Valid()
      modifies registerCache, registerCache.data
      ensures Valid()
      ensures var n := old(Value());
              var cache := n.client.register.(errorSet := true,
                data := Patch(n.client.register.data, 0, StrNCpy(n.packet[ERR_MSG_AT..], PART_SIZE - 1)));
              Value() == n.(client := n.client.(register := cache))
    {
      hide M.Inv, F.CacheInv, R.RingInv, Q.QueueInv, ContentsOf, MeshNode.Repr, StrNCpy, Patch;
      ghost var n := Value();
      registerCache.NoteError(packetCache[ERR_MSG_AT..]);
      ghost var cache := n.client.register.(errorSet := true,
        data := Patch(n.client.register.data, 0, StrNCpy(n.packet[ERR_MSG_AT..], PART_SIZE - 1)));
      M.ClientIsFree(n, n.client.(register := cache));
      assert Value() == n.(client := n.client.(register := cache));
    }

    /** `_Handle_SetRegisterAck` */
    method HandleSetRegisterAck()
      requires Valid()
      modifies this, registerCache, registerCache.data
      ensures Valid() && Value() == M.HandleSetRegisterAck(old(Value()))
    {
      hide M.Inv, MeshNode.Value, MeshNode.Shaped, MeshNode.Repr, M.Complete, M.Calm, M.Steady, StrNCpy, Patch;
      ValueIs();
      if state == M.SettingRegister {
        var answers := FilterPacket(PKT_SET_REGISTER_ACK, false);
        if answers && packetCache[TARGET_AT] == nodeId {
          if packetCache[ERR_MSG_AT] != 0 {
            TakeErrorText();
            RecordResponder();
            Complete(M.InvalidRegisterValue);
          } else {
            RecordResponder();
            Complete(M.StatusOk);
          }
        }
      }
    }

    method BroadcastMatches(behind: Behind) returns (same: bool)
      requires Valid()
      ensures Valid() && Value() == old(Value())
      ensures same == NameAndValueMatch(Value().packet, Value().client.broadcast, behind)
    {
      hide F.CacheInv, R.RingInv, Q.QueueInv, ContentsOf, NameAndValueMatch, M.GenuineAir, M.GenuineSlots, M.Genuine;
      same := broadcastCache.MatchesNameAndValue(packetCache, behind);
    }

    /** The broadcast is read into the client's register, if it fits, and the client told. */
    method TakeBroadcast() returns (converted: bool)
      requires Valid()
      modifies this`history, broadcastCache, broadcastCache.data
      ensures converted == Decodable(old(Value()).packet, true)
      ensures Valid() && Value() == if converted then BroadcastTaken(old(Value())) else old(Value())
    {
      hide M.Inv, F.CacheInv, R.RingInv, Q.QueueInv, ContentsOf, MeshNode.Repr, PacketToRegister, Decodable;
      ghost var n := Value();
      DecodeSteps(n.packet, n.client.broadcast, true);
      converted := broadcastCache.FromPacket(packetCache, true);
      if converted {
        BroadcastKeepsInv(n);
        history := history.(broadcasts := history.broadcasts + 1);
        assert Value() == BroadcastTaken(n);
      } else {
        assert Value() == n;
      }
    }

    /** `_Handle_RegisterValue_Broadcast` */
    method HandleBroadcast(behind: Behind)
      requires Valid()
      modifies this`history, broadcastCache, broadcastCache.data, handled, handled.entries
      ensures Valid() && Value() == M.HandleBroadcast(old(Value()), behind)
    {
      hide M.Inv, MeshNode.Value, MeshNode.Shaped, MeshNode.Repr, M.Calm, M.Steady, PacketToRegister,
           NameAndValueMatch, Decodable, F.Mark;
      ValueIs();
      ghost var n := Value();
      if state != M.Joining && state != M.NotJoined && listening && packetCache[NODE_ID_AT] == 0 {
        var passes := FilterPacket(PKT_REGISTER_VALUE, true);
        if passes {
          var same := BroadcastMatches(behind);
          if same { return; }
          var converted := TakeBroadcast();
          if !converted { return; }
          HandlingRequest();
        }
      }
    }

    // ---- timeouts ----

    /** `_Update_Ping` */
    method UpdatePing(now: uint32)
      requires Valid()
      modifies this`state, this`blockingStatus, this`history
      ensures Valid() && Value() == M.UpdatePing(old(Value()), now)
    {
      hide M.Inv, MeshNode.Value, MeshNode.Shaped, MeshNode.Repr, M.Calm, M.Steady, M.Complete;
      ValueIs();
      if state == M.Pinging && Elapsed(now, requestSentTime) > M.PING_TIMEOUT { Complete(M.StatusOk); }
    }

    /** `_Check_For_Timeout` */
    method CheckForTimeout(operation: M.State, now: uint32)
      requires Valid() && M.OnMesh(operation) && operation != M.Idle
      modifies this`state, this`blockingStatus, this`history
      ensures Valid()
      ensures Value() == if old(state) == operation && Elapsed(now, requestSentTime) > M.REQUEST_TIMEOUT
                         then M.Complete(old(Value()), M.Timeout) else old(Value())
    {
      hide M.Inv, MeshNode.Value, MeshNode.Shaped, MeshNode.Repr, M.Calm, M.Steady, M.Complete;
      ValueIs();
      if state == operation && Elapsed(now, requestSentTime) > M.REQUEST_TIMEOUT { Complete(M.Timeout); }
    }

    /** The four timeout checks of an update. */
    method CheckTimeouts(now: uint32)
      requires Valid()
      modifies this`state, this`blockingStatus, this`history
      ensures Valid() && Value() == M.CheckTimeouts(old(Value()), now)
    {
      hide M.Inv, MeshNode.Value, MeshNode.Shaped, MeshNode.Repr, M.Calm, M.Steady, M.Complete;
      ValueIs();
      CheckForTimeout(M.GettingNumRegisters, now);
      ValueIs();
      CheckForTimeout(M.GettingRegisterName, now);
      ValueIs();
      CheckForTimeout(M.GettingRegister, now);
      ValueIs();
      CheckForTimeout(M.SettingRegister, now);
    }

    // ---- receiving and updating ----

    /** A packet is read from the radio, and the relay timer starts over. */
    method Receive(p: Packet, now: uint32)
      requires Valid()
      modifies this`history, packetCache, repeats`lastSent
      ensures Valid() && Value() == M.Receive(old(Value()), p, now)
    {
      hide M.Inv, F.CacheInv, R.Fifo, R.Remembers, R.NoEcho, Q.QueueInv, ContentsOf, MeshNode.Repr, M.Genuine,
           M.Continues, M.Steady, R.Stamp;
      ghost var n := Value();
      LoadPacket(packetCache, p);
      repeats.SetLastSent(now);
      history := history.(heard := history.heard + {SansHop(p)});
      assert Value() == M.Receive(n, p, now);
    }

    method ReadCorrupt(bytes: Packet)
      requires Valid()
      modifies packetCache
      ensures Valid() && Value() == old(Value()).(packet := bytes)
    {
      hide M.Inv, F.CacheInv, R.RingInv, Q.QueueInv, ContentsOf, MeshNode.Repr;
      ghost var n := Value();
      LoadPacket(packetCache, bytes);
      M.PacketIsFree(n, bytes);
      assert Value() == n.(packet := bytes);
    }

    /** The filter, the join handlers and the relay. */
    method Regard(now: uint32)
      requires Valid() && M.Genuine(M.Id(Value()), Value().packet)
      modifies Repr()
      ensures Valid() && Value() == M.Regard(old(Value()), now)
    {
      hide M.Inv, MeshNode.Value, MeshNode.Shaped, M.Genuine, M.HandleConflictName, M.HandleDeferredJoining,
           M.CacheForRepeat, M.Continues, M.Steady, F.Hear;
      UpdateHandledPacketCache();
      HandleConflictName(now);
      HandleDeferredJoining(now);
      CachePacketForRepeat();
    }

    method ServeDirectory(env: M.Env)
      requires Valid()
      modifies Repr()
      ensures Valid() && Value() == M.ServeDirectory(old(Value()), env)
    {
      hide M.Inv, MeshNode.Value, MeshNode.Shaped, M.HandlePing, M.HandlePong, M.HandleGetNumRegisters,
           M.HandleNumRegisters, M.HandleGetRegisterName, M.HandleRegisterName, M.Calm, M.Steady;
      HandlePing(env.rxTime);
      HandlePong();
      HandleGetNumRegisters(env.rxTime);
      HandleNumRegisters();
      HandleGetRegisterName(env.rxTime);
      HandleRegisterName(env.strayByte);
    }

    method ServeRegisters(env: M.Env)
      requires Valid()
      modifies Repr()
      ensures Valid() && Value() == M.ServeRegisters(old(Value()), env)
    {
      hide M.Inv, MeshNode.Value, MeshNode.Shaped, M.HandleGetRegister, M.HandleRegisterValue, M.HandleSetRegister,
           M.HandleSetRegisterAck, M.HandleBroadcast, M.Calm, M.Steady;
      HandleGetRegister(env.getReply, env.rxTime);
      HandleRegisterValue();
      HandleSetRegister(env.setReply, env.rxTime);
      HandleSetRegisterAck();
      HandleBroadcast(env.behind);
    }

    /** `_Handle_RX` */
    method HandleRx(env: M.Env)
      requires Valid()
      modifies Repr()
      ensures Valid() && Value() == M.HandleRx(old(Value()), env)
    {
      hide M.Inv, MeshNode.Value, MeshNode.Shaped, M.Receive, M.Regard, M.ServeDirectory, M.ServeRegisters,
           M.SendConflict, M.Continues, M.Calm, M.Steady, M.Genuine;
      match env.rx
      case NoData =>
      case Corrupt(bytes) => ReadCorrupt(bytes);
      case Received(p) =>
        Receive(p, env.rxTime);
        var found := CheckForNodeIdConflicts(env.rxTime);
        if found { return; }
        Regard(env.rxTime);
        ServeDirectory(env);
        ServeRegisters(env);
    }

    /** `A7105_Mesh_Update` */
    method Update(env: M.Env)
      requires Valid()
      modifies Repr()
      ensures Valid() && Value() == M.Update(old(Value()), env)
    {
      hide M.Inv, MeshNode.Value, MeshNode.Shaped, M.HandleRx, M.UpdateJoin, M.UpdatePing, M.CheckTimeouts,
           M.UpdateRepeats, M.UpdateResponseRepeats, M.UpdateRequestRepeats, M.Continues, M.Calm, M.Steady;
      HandleRx(env);
      UpdateJoin(env.joinTime);
      UpdatePing(env.pingTime);
      CheckTimeouts(env.timeoutTime);
      UpdateRepeats(env.relayTime, env.relayDelay);
      UpdateResponseRepeats(env.responseTime, env.responseDelay, env.stray);
      UpdateRequestRepeats(env.requestTime, env.requestDelay);
    }

    // ---- the client's calls ----

    /** `_Is_Node_Idle` */
    method Readiness() returns (status: M.Status)
      requires Valid()
      ensures Valid() && Value() == old(Value()) && status == O.Readiness(Value())
    {
      hide M.Inv, ContentsOf;
      if state == M.Joining || state == M.NotJoined { return M.NotOnMesh; }
      status := if state != M.Idle then M.Busy else M.StatusOk;
    }

    /** The record of packets sent starts over. */
    ghost method Begin()
      requires Valid()
      modifies this`history
      ensures Valid() && Value() == O.Begin(old(Value()))
    {
      hide M.Inv, F.CacheInv, R.RingInv, Q.QueueInv, ContentsOf, MeshNode.Repr;
      ghost var n := Value();
      history := history.(air := []);
      assert Value() == O.Begin(n);
    }

    method StartFields(next: M.State, targetNode: byte, targetUnique: uint16, user: M.Callback)
      modifies this`state, this`targetNodeId, this`targetUniqueId, this`operationCallback, this`blockingStatus, this`history
      ensures state == next && targetNodeId == targetNode && targetUniqueId == targetUnique
      ensures blockingStatus == M.NoStatus && operationCallback == if user == M.NullCallback then M.BlockingFinished else user
      ensures history == old(history).(started := old(history).started + 1)
    {
      state := next;
      targetNodeId := targetNode;
      targetUniqueId := targetUnique;
      PrepFinishingCallback(user);
      history := history.(started := history.started + 1);
    }

    /** The start common to all operations. */
    method Start(next: M.State, targetNode: byte, targetUnique: uint16, user: M.Callback)
      requires Valid() && state == M.Idle && M.OnMesh(next) && next != M.Idle
      modifies this`state, this`targetNodeId, this`targetUniqueId, this`operationCallback, this`blockingStatus, this`history
      ensures Valid() && Value() == O.Start(old(Value()), next, targetNode, targetUnique, user)
    {
      hide M.Inv, F.CacheInv, R.RingInv, Q.QueueInv, ContentsOf, MeshNode.Repr, M.Steady;
      ghost var n := Value();
      StartFields(next, targetNode, targetUnique, user);
      assert Value() == O.Start(n, next, targetNode, targetUnique, user);
    }

    method ClearPresence()
      requires Valid()
      modifies presence.table
      ensures Valid() && Value() == old(Value()).(presence := P.Nobody())
    {
      hide F.CacheInv, R.RingInv, Q.QueueInv, ContentsOf, MeshNode.Repr, M.GenuineAir, M.GenuineSlots, M.Genuine,
           M.RepliesOnly;
      ghost var n := Value();
      presence.Clear();
      assert Value() == n.(presence := P.Nobody());
    }

    /** `A7105_Mesh_Ping`, up to its wait for the outcome, as in all calls here. */
    method Ping(user: M.Callback, now: uint32) returns (status: M.Status)
      requires Valid()
      modifies Repr()
      ensures Valid() && (Value(), status) == O.Ping(old(Value()), user, now)
    {
      hide M.Inv, MeshNode.Value, MeshNode.Shaped, O.Start, M.SendRequest, M.HeaderFor, M.Genuine, O.Called, M.Calm,
           M.Steady;
      ValueIs();
      status := Readiness();
      if status != M.StatusOk { return; }
      Start(M.Pinging, 0, 0, user);
      ClearPresence();
      PrepPacketHeader(PKT_PING);
      M.OtherIsGenuine(M.Id(Value()), Value().packet);
      SendRequest(now);
    }

    /** `A7105_Mesh_GetNumRegisters` */
    method GetNumRegisters(target: byte, targetUnique: uint16, user: M.Callback, now: uint32) returns (status: M.Status)
      requires Valid()
      modifies Repr()
      ensures Valid() && (Value(), status) == O.GetNumRegisters(old(Value()), target, targetUnique, user, now)
    {
      hide M.Inv, MeshNode.Value, MeshNode.Shaped, O.Start, M.SendRequest, M.HeaderFor, M.Genuine, O.Called, M.Calm,
           M.Steady;
      ValueIs();
      status := Readiness();
      if status != M.StatusOk { return; }
      Start(M.GettingNumRegisters, target, targetUnique, user);
      PrepPacketHeader(PKT_GET_NUM_REGISTERS);
      WritePacketByte(TARGET_AT, target);
      M.OtherIsGenuine(M.Id(Value()), Value().packet);
      SendRequest(now);
    }

    method SetTargetIndex(index: byte)
      requires Valid()
      modifies this`targetRegisterIndex
      ensures Valid()
      ensures var n := old(Value());
              Value() == n.(request := n.request.(targetIndex := index))
    {
      hide F.CacheInv, R.RingInv, Q.QueueInv, ContentsOf, MeshNode.Repr, M.GenuineAir, M.GenuineSlots, M.Genuine,
           M.RepliesOnly;
      ghost var n := Value();
      targetRegisterIndex := index;
      assert Value() == n.(request := n.request.(targetIndex := index));
    }

    /** `A7105_Mesh_GetRegisterName` */
    method GetRegisterName(target: byte, index: byte, targetUnique: uint16, user: M.Callback, now: uint32)
      returns (status: M.Status)
      requires Valid()
      modifies Repr()
      ensures Valid() && (Value(), status) == O.GetRegisterName(old(Value()), target, index, targetUnique, user, now)
    {
      hide M.Inv, MeshNode.Value, MeshNode.Shaped, O.Start, M.SendRequest, M.HeaderFor, M.Genuine, O.Called, M.Calm,
           M.Steady;
      ValueIs();
      status := Readiness();
      if status != M.StatusOk { return; }
      Start(M.GettingRegisterName, target, targetUnique, user);
      SetTargetIndex(index);
      PrepPacketHeader(PKT_GET_REGISTER_NAME);
      WritePacketByte(TARGET_AT, target);
      WritePacketByte(REG_INDEX_AT, index);
      M.OtherIsGenuine(M.Id(Value()), Value().packet);
      SendRequest(now);
    }

    /** A register a client may pass: its bytes are not a packet buffer. The register cache may be passed. */
    ghost predicate Foreign(reg: MeshRegister)
      reads reg
    {
      reg.Valid() && reg.data != packetCache && reg.data != pendingRequestCache &&
      (reg != registerCache ==> reg.data != registerCache.data)
    }

    /** Puts a client's register into the prepared packet. */
    method EncodeRegister(reg: MeshRegister, withValue: bool) returns (ok: bool)
      requires Valid() && Foreign(reg)
      modifies packetCache
      ensures Valid() && Foreign(reg) && reg.Contents() == old(reg.Contents())
      ensures ok == Encodable(reg.Contents(), withValue)
      ensures var n := old(Value());
              Value() == n.(packet := RegisterToPacket(n.packet, reg.Contents(), withValue))
    {
      hide M.Inv, F.CacheInv, R.RingInv, Q.QueueInv, ContentsOf, MeshNode.Repr, RegisterToPacket, Encodable;
      ghost var n := Value();
      ok := reg.ToPacket(packetCache, withValue);
      M.PacketIsFree(n, packetCache[..]);
      assert Value() == n.(packet := RegisterToPacket(n.packet, reg.Contents(), withValue));
    }

    method CacheRegister(reg: MeshRegister)
      requires Valid() && Foreign(reg)
      modifies registerCache, registerCache.data
      ensures Valid()
      ensures var n := old(Value());
              Value() == n.(client := n.client.(register := O.CopyInto(n.client.register, old(reg.Contents()))))
      ensures reg.Valid() && reg.Contents() == old(reg.Contents())
    {
      hide M.Inv, F.CacheInv, R.RingInv, Q.QueueInv, ContentsOf, MeshNode.Repr;
      ghost var n := Value();
      if reg != registerCache { registerCache.CopyFrom(reg); }
      ghost var c := n.client.(register := O.CopyInto(n.client.register, old(reg.Contents())));
      M.ClientIsFree(n, c);
      assert Value() == n.(client := c);
    }

    /** `A7105_Mesh_GetRegister` */
    method GetRegister(reg: MeshRegister, user: M.Callback, now: uint32) returns (status: M.Status)
      requires Valid() && Foreign(reg)
      modifies this, packetCache, pendingRequestCache, responses, responses.slots, registerCache, registerCache.data
      ensures Valid() && (Value(), status) == O.GetRegister(old(Value()), old(reg.Contents()), user, now)
    {
      hide M.Inv, MeshNode.Value, MeshNode.Shaped, MeshNode.Repr, O.Start, M.SendRequest, M.HeaderFor, M.Genuine,
           O.Called, M.Calm, M.Steady, RegisterToPacket, Encodable, MeshRegister.Contents, O.CopyInto;
      ValueIs();
      status := Readiness();
      if status != M.StatusOk { return; }
      Start(M.GettingRegister, 0, 0, user);
      PrepPacketHeader(PKT_GET_REGISTER);
      var ok := EncodeRegister(reg, false);
      if !ok { return M.InvalidRegisterLength; }
      CacheRegister(reg);
      M.OtherIsGenuine(M.Id(Value()), Value().packet);
      SendRequest(now);
    }

    /** `A7105_Mesh_SetRegister` */
    method SetRegister(reg: MeshRegister, user: M.Callback, now: uint32) returns (status: M.Status)
      requires Valid() && Foreign(reg)
      modifies this, packetCache, pendingRequestCache, responses, responses.slots
      ensures Valid() && (Value(), status) == O.SetRegister(old(Value()), old(reg.Contents()), user, now)
    {
      hide M.Inv, MeshNode.Value, MeshNode.Shaped, MeshNode.Repr, O.Start, M.SendRequest, M.HeaderFor, M.Genuine,
           O.Called, M.Calm, M.Steady, RegisterToPacket, Encodable, MeshRegister.Contents;
      ValueIs();
      status := Readiness();
      if status != M.StatusOk { return; }
      Start(M.SettingRegister, 0, 0, user);
      PrepPacketHeader(PKT_SET_REGISTER);
      var ok := EncodeRegister(reg, true);
      if !ok { return M.InvalidRegisterLength; }
      M.OtherIsGenuine(M.Id(Value()), Value().packet);
      SendRequest(now);
    }

    method NextSequence()
      requires Valid()
      modifies this`sequence
      ensures Valid()
      ensures var n := old(Value());
              Value() == n.(request := n.request.(sequence := (n.request.sequence + 1) % 16))
    {
      hide F.CacheInv, R.RingInv, Q.QueueInv, ContentsOf, MeshNode.Repr, M.GenuineAir, M.GenuineSlots, M.Genuine,
           M.RepliesOnly;
      ghost var n := Value();
      sequence := (sequence + 1) % 16;
      assert Value() == n.(request := n.request.(sequence := (n.request.sequence + 1) % 16));
    }

    /** The packet of a broadcast: a value under node id 0. */
    method PrepBroadcast(reg: MeshRegister) returns (ok: bool)
      requires Valid() && Foreign(reg)
      modifies packetCache
      ensures Valid() && ok == Encodable(old(reg.Contents()), true)
      ensures var n := old(Value());
              Value() == n.(packet := RegisterToPacket(M.HeaderFor(n, PKT_REGISTER_VALUE)[NODE_ID_AT := 0],
                                                       old(reg.Contents()), true))
    {
      hide M.Inv, MeshNode.Value, MeshNode.Shaped, MeshNode.Repr, M.HeaderFor, RegisterToPacket, Encodable,
           MeshRegister.Contents;
      PrepPacketHeader(PKT_REGISTER_VALUE);
      WritePacketByte(NODE_ID_AT, 0);
      ok := EncodeRegister(reg, true);
    }

    /** `A7105_Mesh_Broadcast` */
    method Broadcast(reg: MeshRegister, now: uint32) returns (status: M.Status)
      requires Valid() && Foreign(reg)
      modifies this, packetCache, responses, responses.slots
      ensures Valid() && (Value(), status) == O.Broadcast(old(Value()), old(reg.Contents()), now)
    {
      hide M.Inv, MeshNode.Value, MeshNode.Shaped, MeshNode.Repr, M.SendResponse, M.HeaderFor, M.Genuine, O.Called,
           M.Calm, M.Steady, RegisterToPacket, Encodable, MeshRegister.Contents;
      ValueIs();
      if state == M.Joining || state == M.NotJoined { return M.NotOnMesh; }
      var ok := PrepBroadcast(reg);
      if !ok { return M.InvalidRegisterValue; }
      NextSequence();
      M.OtherIsGenuine(M.Id(Value()), Value().packet);
      SendResponse(now);
      status := M.StatusOk;
    }

    /** `A7105_Mesh_Broadcast_Listen`: here the node keeps the register itself, not a reference to it. */
    method BroadcastListen(on: bool, reg: Register)
      requires Valid()
      modifies this`listening, broadcastCache, broadcastCache.data
      ensures Valid() && Value() == O.Listen(old(Value()), on, reg)
    {
      hide M.Inv, F.CacheInv, R.RingInv, Q.QueueInv, ContentsOf, MeshNode.Repr, O.Called;
      ghost var n := Value();
      broadcastCache.Assign(reg);
      listening := on;
      assert Value() == O.Listen(n, on, reg);
    }

    ghost method CountOperation()
      requires Valid()
      modifies this`history
      ensures Valid()
      ensures var n := old(Value());
              Value() == n.(history := n.history.(started := n.history.started + 1))
    {
      hide F.CacheInv, R.RingInv, Q.QueueInv, ContentsOf, MeshNode.Repr, M.Genuine;
      ghost var n := Value();
      history := history.(started := history.started + 1);
      assert Value() == n.(history := n.history.(started := n.history.started + 1));
    }

    /** A client's join. */
    method StartJoin(id: byte, user: M.Callback, now: uint32)
      requires Valid() && state == M.NotJoined
      modifies this, packetCache, pendingRequestCache, responses, responses.slots
      ensures Valid() && Value() == O.StartJoin(old(Value()), id, user, now)
    {
      hide M.Inv, MeshNode.Value, MeshNode.Shaped, MeshNode.Repr, M.Join;
      ValueIs();
      CountOperation();
      Join(id, user, now);
    }

    /** `A7105_Get_Next_Present_Node` */
    method GetNextPresentNode(start: byte) returns (next: byte)
      requires Valid()
      ensures Valid() && Value() == old(Value())
      ensures |Value().presence| == P.TABLE_BYTES && next == P.NextPresent(Value().presence, start)
    {
      hide F.CacheInv, R.RingInv, Q.QueueInv, ContentsOf, P.NextPresent, M.GenuineAir, M.GenuineSlots, M.Genuine,
           M.RepliesOnly;
      next := presence.GetNext(start);
    }

    /** A client's register with these contents. */
    method NewForeign(r: Register) returns (reg: MeshRegister)
      requires Valid()
      ensures Valid() && Value() == old(Value()) && Foreign(reg) && reg.Contents() == r
    {
      hide M.Inv, F.CacheInv, R.RingInv, Q.QueueInv, ContentsOf, MeshRegister.Contents;
      reg := new MeshRegister(false, false);
      reg.Assign(r);
    }

    method ActWithRegister(a: O.Action)
      requires Valid() && (a.DoGetRegister? || a.DoSetRegister? || a.DoBroadcast?)
      modifies Repr()
      ensures Valid()
      ensures var n := old(Value());
              Value() == match a
                         case DoGetRegister(r, user, now) => O.GetRegister(n, r, user, now).0
                         case DoSetRegister(r, user, now) => O.SetRegister(n, r, user, now).0
                         case DoBroadcast(r, now) => O.Broadcast(n, r, now).0
                         case _ => n
    {
      hide M.Inv, MeshNode.Value, MeshNode.Shaped, O.GetRegister, O.SetRegister, O.Broadcast, O.Called,
           MeshRegister.Contents;
      var reg := NewForeign(a.register);
      match a
      case DoGetRegister(_, user, now) => var _ := GetRegister(reg, user, now);
      case DoSetRegister(_, user, now) => var _ := SetRegister(reg, user, now);
      case DoBroadcast(_, now) => var _ := Broadcast(reg, now);
    }

    /** Whatever a client does with the object is the action on its value. */
    method Act(a: O.Action)
      requires Valid() && O.Allowed(Value(), a)
      modifies Repr()
      ensures Valid() && Value() == O.Act(old(Value()), a)
    {
      hide M.Inv, MeshNode.Value, MeshNode.Shaped, M.Update, O.StartJoin, O.Ping, O.GetNumRegisters,
           O.GetRegisterName, O.GetRegister, O.SetRegister, O.Broadcast, O.Listen, O.Called;
      Begin();
      ValueIs();
      match a
      case DoUpdate(env) => Update(env);
      case DoJoin(id, user, now) => StartJoin(id, user, now);
      case DoPing(user, now) => var _ := Ping(user, now);
      case DoGetNumRegisters(target, unique, user, now) => var _ := GetNumRegisters(target, unique, user, now);
      case DoGetRegisterName(target, index, unique, user, now) =>
        var _ := GetRegisterName(target, index, unique, user, now);
      case DoListen(on, register) => BroadcastListen(on, register);
      case _ => ActWithRegister(a);
    }

    /** A run of the object is the run of its value, so what is proved of runs holds of the object. */
    method Run(actions: seq<O.Action>)
      requires Valid() && J.AllowedRun(Value(), actions)
      modifies Repr()
      ensures Valid() && Value() == J.Run(old(Value()), actions)
    {
      hide M.Inv, MeshNode.Value, MeshNode.Shaped, O.Act, O.Allowed;
      for k := 0 to |actions|
        invariant Valid() && J.AllowedRun(Value(), actions[k..])
        invariant J.Run(Value(), actions[k..]) == J.Run(old(Value()), actions)
      {
        assert actions[k..][0] == actions[k] && actions[k..][1..] == actions[k + 1..];
        Act(actions[k]);
      }
    }
  }

  /** A broadcast has been read and reported, and is still to be marked as handled. */
  ghost function BroadcastTaken(n: M.Node): M.Node {
    n.(client := n.client.(broadcast := PacketToRegister(n.packet, n.client.broadcast, true)),
       history := n.history.(broadcasts := n.history.broadcasts + 1))
  }

  lemma BroadcastKeepsInv(n: M.Node)
    requires M.Inv(n) && Decodable(n.packet, true)
    ensures M.Inv(BroadcastTaken(n))
  {
    hide F.CacheInv, R.RingInv, Q.QueueInv, M.Genuine;
    DecodedFields(n.packet, n.client.broadcast);
  }

  /** The outcome of a SET request is in the registers and the register cache. */
  ghost function Applied(n: M.Node, i: nat, o: M.SetOutcome): (r: M.Node)
    requires M.Inv(n) && i < |n.registers|
    ensures M.Inv(r)
  {
    hide M.Inv;
    var rs, c := n.registers[i := o.register], n.client.(register := o.cache);
    M.RegistersAreFree(n, rs);
    M.ClientIsFree(n.(registers := rs), c);
    n.(registers := rs, client := c)
  }

  /** The acknowledgement is about to be sent. */
  ghost function AckReady(n: M.Node, target: byte, error: bool): (r: M.Node)
    requires M.Inv(n)
    ensures M.Inv(r) && Kind(r.packet) == PKT_SET_REGISTER_ACK && M.Genuine(M.Id(r), r.packet)
  {
    hide M.Inv, M.Genuine;
    var ack := M.SetAck(n, target, M.SetOutcome(n.client.register, n.client.register, error));
    var c := if error then n.client.(register := Blank(false, false)) else n.client;
    M.PacketIsFree(n, ack);
    M.ClientIsFree(n.(packet := ack), c);
    M.OtherIsGenuine(M.Id(n), ack);
    n.(packet := ack, client := c)
  }

  /** The acknowledgement is sent. */
  ghost function AckSent(n: M.Node, i: nat, o: M.SetOutcome, now: uint32): (r: M.Node)
    requires M.Inv(n) && i < |n.registers| && M.Passes(n, PKT_SET_REGISTER)
    ensures |r.registers| == |n.registers|
  {
    hide M.Inv, M.SendResponse, M.Calm, M.Genuine, F.Mark, F.Seen;
    M.SendResponse(AckReady(M.MarkHandled(Applied(n, i, o)), Sender(n.packet), o.error), now)
  }

  ghost function Cleared(rs: seq<Register>, i: nat): seq<Register>
    requires i < |rs|
  {
    rs[i := rs[i].(errorSet := false)]
  }

  /** A SET request, in the order in which it is served. */
  lemma SetSteps(n: M.Node, i: nat, reply: M.SetReply, now: uint32)
    requires M.Inv(n) && M.OnMesh(n.state) && M.Passes(n, PKT_SET_REGISTER)
    requires i < |n.registers| && M.FindRegister(n.packet, n.registers, 0) == Some(i)
    ensures var o := M.SetRequested(n.packet, n.registers[i], n.client.register, reply);
            var sent := AckSent(n, i, o, now);
            M.HandleSetRegister(n, reply, now) == sent.(registers := Cleared(sent.registers, i))
  {
    hide M.Inv, M.SetRequested, M.FindRegister, M.Genuine, M.SendResponse, M.Calm, F.Mark, Patch, StrNCpy,
         M.HeaderFor;
    var o := M.SetRequested(n.packet, n.registers[i], n.client.register, reply);
    var ready := AckReady(M.MarkHandled(Applied(n, i, o)), Sender(n.packet), o.error);
    var rs := n.registers[i := o.register];
    var cleared := rs[i := rs[i].(errorSet := false)];
    assert cleared == n.registers[i := o.register.(errorSet := false)];
    M.AckIgnoresRegisters(ready, cleared, now);
    assert M.SetAck(n, Sender(n.packet), o) == ready.packet by { AckIs(n, i, o); }
    assert ready.(registers := cleared) == M.StoreOutcome(M.MarkHandled(n), i, o).(packet := ready.packet);
  }

  lemma AckIs(n: M.Node, i: nat, o: M.SetOutcome)
    requires M.Inv(n) && i < |n.registers| && M.Passes(n, PKT_SET_REGISTER)
    ensures AckReady(M.MarkHandled(Applied(n, i, o)), Sender(n.packet), o.error).packet == M.SetAck(n, Sender(n.packet), o)
  {
    hide M.Inv, M.Genuine, M.Calm, F.Mark, Patch, StrNCpy, Header;
  }

  lemma SetOfUnknown(n: M.Node, reply: M.SetReply, now: uint32)
    requires M.Inv(n)
    requires !M.OnMesh(n.state) || !M.Passes(n, PKT_SET_REGISTER) || M.FindRegister(n.packet, n.registers, 0) == None
    ensures M.HandleSetRegister(n, reply, now) == n
  {
    hide M.Inv;
  }

  /** A GET request, in the order in which it is served. */
  lemma GetSteps(n: M.Node, i: nat, getReply: Register, now: uint32)
    requires M.Inv(n) && M.OnMesh(n.state) && M.Passes(n, PKT_GET_REGISTER)
    requires M.FindRegister(n.packet, n.registers, 0) == Some(i)
    ensures var m := M.MarkHandled(n);
            var r := if n.registers[i].hasGetCallback
                     then m.(registers := m.registers[i := M.Rewritten(m.registers[i], getReply)]) else m;
            var q := r.(packet := RegisterToPacket(M.HeaderFor(r, PKT_REGISTER_VALUE), r.registers[i], true));
            M.Inv(q) && M.Genuine(M.Id(q), q.packet) && M.HandleGetRegister(n, getReply, now) == M.SendResponse(q, now)
  {
    hide M.Inv, M.SendResponse, M.Calm, RegisterToPacket, M.FindRegister, M.Genuine;
    var m := M.MarkHandled(n);
    var reg := M.Refreshed(n.registers[i], getReply);
    var r := m.(registers := m.registers[i := reg]);
    if !n.registers[i].hasGetCallback { assert n.registers[i := reg] == n.registers; }
    M.RegistersAreFree(m, r.registers);
    var q := r.(packet := RegisterToPacket(M.HeaderFor(r, PKT_REGISTER_VALUE), r.registers[i], true));
    M.PacketIsFree(r, q.packet);
    M.OtherIsGenuine(M.Id(q), q.packet);
  }

  lemma GetOfUnknown(n: M.Node, getReply: Register, now: uint32)
    requires M.Inv(n)
    requires !M.OnMesh(n.state) || !M.Passes(n, PKT_GET_REGISTER) || M.FindRegister(n.packet, n.registers, 0) == None
    ensures M.HandleGetRegister(n, getReply, now) == n
  {
    hide M.Inv;
  }

  lemma NameReplyIgnoresFilter(n: M.Node, m: M.Node, index: byte)
    requires m == n.(filter := m.filter)
    ensures M.NameReply(m, index) == M.NameReply(n, index)
  {
  }
}
