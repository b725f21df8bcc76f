/** What is repeated, and how often: on every turn the oldest of the least repeated responses, until each has been on
    the air six times more; and the request of an operation under way, up to four times. */
module Persistence {
  import opened Bytes
  import opened Packets
  import opened Registers
  import opened Model
  import opened Operations
  import opened Joining
  import opened Traffic
  import B = Rebuild
  import F = Filter
  import Q = Responses
  import R = Relay
  import S = Server

  // ---- what happens to the ring of responses before the repeaters ----

  /** Responses may have been queued behind the others. */
  ghost predicate QueueGrows(q: Q.Queue, r: Q.Queue) {
    Q.Shaped(q) && Q.Shaped(r) && q.size <= r.size && q.start == r.start && q.popped == r.popped &&
    q.repeats <= r.repeats && forall k | 0 <= k < q.size :: Q.Live(r, k) == Q.Live(q, k)
  }

  lemma QueueGrowsChains(a: Q.Queue, b: Q.Queue, c: Q.Queue)
    requires QueueGrows(a, b) && QueueGrows(b, c)
    ensures QueueGrows(a, c)
  {
  }

  lemma StampGrows(q: Q.Queue, now: uint32)
    requires Q.Shaped(q)
    ensures QueueGrows(q, Q.Stamp(q, now))
  {
  }

  lemma AppendGrows(q: Q.Queue, op: byte, sequence: byte, data: byte, setsData: bool, now: uint32)
    requires Q.Shaped(q)
    ensures QueueGrows(q, Q.Stamp(Q.Append(q, op, sequence, data, setsData), now))
  {
  }

  lemma QueueStays(n: Node)
    requires Inv(n)
    ensures QueueGrows(n.responses, n.responses)
  {
    hide Q.Accounted, Q.Fair;
  }

  lemma SendingQueues(n: Node, now: uint32)
    requires Inv(n) && Genuine(Id(n), n.packet)
    ensures QueueGrows(n.responses, SendResponse(n, now).responses)
    ensures SendResponse(n, now).responses.lastSent == now
  {
    hide Inv, QueueGrows, Q.Append, Genuine;
    QueueStays(n);
    ShapedQueue(n);
    if IsReply(Kind(n.packet)) {
      AppendGrows(n.responses, Kind(n.packet), Sequence(n.packet), SummaryData(n.packet, n.registers),
                  SummaryHasData(Kind(n.packet)), now);
    } else {
      StampGrows(n.responses, now);
    }
  }

  lemma ShapedQueue(n: Node)
    requires Inv(n)
    ensures Q.Shaped(n.responses)
  {
  }

  /** Every packet sent starts the delay between responses anew. */
  ghost predicate Queues(n: Node, r: Node, now: uint32) {
    n.history.air <= r.history.air && QueueGrows(n.responses, r.responses) &&
    r.responses.lastSent == if r.history.air == n.history.air then n.responses.lastSent else now
  }

  lemma QueuesChains(a: Node, b: Node, c: Node, now: uint32)
    requires Queues(a, b, now) && Queues(b, c, now)
    ensures Queues(a, c, now)
  {
    QueueGrowsChains(a.responses, b.responses, c.responses);
  }

  lemma SameQueues(n: Node, r: Node, now: uint32)
    requires Inv(n) && r.responses == n.responses && r.history.air == n.history.air
    ensures Queues(n, r, now)
  {
    hide Inv;
    QueueStays(n);
  }

  lemma ReplyQueues(n: Node, p: Packet, now: uint32)
    requires Inv(n) && IsReply(Kind(p))
    ensures Queues(n, Reply(n, p, now), now)
  {
    hide Inv, QueueGrows, SendResponse, Calm, Genuine;
    PacketIsFree(n, p);
    OtherIsGenuine(Id(n), p);
    SendingQueues(n.(packet := p), now);
  }

  lemma RequestQueues(n: Node, now: uint32)
    requires Inv(n) && Genuine(Id(n), n.packet)
    ensures Queues(n, SendRequest(n, now), now)
  {
    hide Inv, QueueGrows, SendResponse, Calm, Genuine;
    SendingQueues(Numbered(n, now), now);
  }

  // ---- the handlers ----

  lemma PresenceQueues(n: Node, now: uint32)
    requires Inv(n)
    ensures Queues(n, HandlePong(HandlePing(n, now)), now)
  {
    hide Inv, Queues, F.Seen, F.Mark, Reply, Calm;
    if HandlePing(n, now) == n {
      SameQueues(n, HandlePong(n), now);
    } else {
      var m := MarkHandled(n);
      SameQueues(n, m, now);
      ReplyQueues(m, HeaderFor(n, PKT_PONG), now);
      SameQueues(HandlePing(n, now), HandlePong(HandlePing(n, now)), now);
      QueuesChains(n, m, HandlePing(n, now), now);
      QueuesChains(n, HandlePing(n, now), HandlePong(HandlePing(n, now)), now);
    }
  }

  lemma NumbersQueue(n: Node, now: uint32)
    requires Inv(n)
    ensures Queues(n, HandleNumRegisters(HandleGetNumRegisters(n, now)), now)
  {
    hide Inv, Queues, F.Seen, F.Mark, Reply, Calm;
    FewRegisters(n);
    var g := HandleGetNumRegisters(n, now);
    if g == n {
      SameQueues(n, g, now);
    } else {
      var m := MarkHandled(n);
      SameQueues(n, m, now);
      ReplyQueues(m, HeaderFor(n, PKT_NUM_REGISTERS)[DATA_AT := |n.registers|], now);
      QueuesChains(n, m, g, now);
    }
    CountTaken(g);
    SameQueues(g, HandleNumRegisters(g), now);
    QueuesChains(n, g, HandleNumRegisters(g), now);
  }

  lemma CountTaken(n: Node)
    requires Inv(n)
    ensures HandleNumRegisters(n).responses == n.responses && HandleNumRegisters(n).history.air == n.history.air
  {
    hide Inv;
  }

  lemma NamesQueue(n: Node, strayByte: byte, now: uint32)
    requires Inv(n)
    ensures Queues(n, HandleRegisterName(HandleGetRegisterName(n, now), strayByte), now)
  {
    hide Inv, Queues, F.Seen, F.Mark, Reply, Calm, NameReply;
    var g := HandleGetRegisterName(n, now);
    if g == n {
      SameQueues(n, g, now);
    } else {
      var m := MarkHandled(n);
      SameQueues(n, m, now);
      ReplyQueues(m, NameReply(n, n.packet[REG_INDEX_AT]), now);
      QueuesChains(n, m, g, now);
    }
    NameTaken(g, strayByte);
    SameQueues(g, HandleRegisterName(g, strayByte), now);
    QueuesChains(n, g, HandleRegisterName(g, strayByte), now);
  }

  lemma NameTaken(n: Node, strayByte: byte)
    requires Inv(n)
    ensures HandleRegisterName(n, strayByte).responses == n.responses
    ensures HandleRegisterName(n, strayByte).history.air == n.history.air
  {
    hide Inv, PacketToRegister, RegisterIndex;
  }

  lemma ValuesQueue(n: Node, getReply: Register, now: uint32)
    requires Inv(n)
    ensures Queues(n, HandleRegisterValue(HandleGetRegister(n, getReply, now)), now)
  {
    hide Inv, Queues, F.Seen, F.Mark, Reply, Calm, RegisterToPacket, FindRegister;
    var g := HandleGetRegister(n, getReply, now);
    if g == n {
      SameQueues(n, g, now);
    } else {
      var i := FindRegister(n.packet, n.registers, 0).value;
      var m := MarkHandled(n).(registers := n.registers[i := Refreshed(n.registers[i], getReply)]);
      RegistersAreFree(MarkHandled(n), m.registers);
      SameQueues(n, m, now);
      ReplyQueues(m, S.ValueReply(n, i, getReply), now);
      QueuesChains(n, m, g, now);
    }
    ValueTaken(g);
    SameQueues(g, HandleRegisterValue(g), now);
    QueuesChains(n, g, HandleRegisterValue(g), now);
  }

  lemma ValueTaken(n: Node)
    requires Inv(n)
    ensures HandleRegisterValue(n).responses == n.responses && HandleRegisterValue(n).history.air == n.history.air
  {
    hide Inv, PacketToRegister, NameMatches;
  }

  lemma SettingQueues(n: Node, reply: SetReply, now: uint32)
    requires Inv(n)
    ensures Queues(n, HandleSetRegister(n, reply, now), now)
  {
    hide Inv, Queues, F.Seen, F.Mark, Reply, Calm, FindRegister, SetRequested, SetAck, StoreOutcome;
    var g := HandleSetRegister(n, reply, now);
    if OnMesh(n.state) && Passes(n, PKT_SET_REGISTER) && FindRegister(n.packet, n.registers, 0).Some? {
      var i := FindRegister(n.packet, n.registers, 0).value;
      var o := SetRequested(n.packet, n.registers[i], n.client.register, reply);
      var m := StoreOutcome(MarkHandled(n), i, o);
      SameQueues(n, m, now);
      ReplyQueues(m, SetAck(n, Sender(n.packet), o), now);
      QueuesChains(n, m, g, now);
    } else {
      SameQueues(n, g, now);
    }
  }

  lemma OutcomesQueue(n: Node, behind: Behind, now: uint32)
    requires Inv(n)
    ensures Queues(n, HandleBroadcast(HandleSetRegisterAck(n), behind), now)
  {
    hide Inv, Queues;
    OutcomeTaken(n);
    BroadcastTaken(HandleSetRegisterAck(n), behind);
    SameQueues(n, HandleBroadcast(HandleSetRegisterAck(n), behind), now);
  }

  lemma OutcomeTaken(n: Node)
    requires Inv(n)
    ensures HandleSetRegisterAck(n).responses == n.responses && HandleSetRegisterAck(n).history.air == n.history.air
  {
    hide Inv, StrNCpy, Patch;
  }

  lemma BroadcastTaken(n: Node, behind: Behind)
    requires Inv(n)
    ensures HandleBroadcast(n, behind).responses == n.responses && HandleBroadcast(n, behind).history.air == n.history.air
  {
    hide Inv, NameAndValueMatch, PacketToRegister, F.Mark, F.Seen;
  }

  lemma DirectoryQueues(n: Node, env: Env)
    requires Inv(n)
    ensures Queues(n, ServeDirectory(n, env), env.rxTime)
  {
    hide Inv, Queues, HandlePing, HandlePong, HandleGetNumRegisters, HandleNumRegisters, HandleGetRegisterName,
         HandleRegisterName;
    PresenceQueues(n, env.rxTime);
    var n1 := HandlePong(HandlePing(n, env.rxTime));
    NumbersQueue(n1, env.rxTime);
    var n2 := HandleNumRegisters(HandleGetNumRegisters(n1, env.rxTime));
    NamesQueue(n2, env.strayByte, env.rxTime);
    QueuesChains(n, n1, n2, env.rxTime);
    QueuesChains(n, n2, ServeDirectory(n, env), env.rxTime);
  }

  lemma ServingQueues(n: Node, env: Env)
    requires Inv(n)
    ensures Queues(n, Serve(n, env), env.rxTime)
  {
    hide Inv, Queues, ServeDirectory, HandleGetRegister, HandleRegisterValue, HandleSetRegister, HandleSetRegisterAck,
         HandleBroadcast;
    DirectoryQueues(n, env);
    var m := ServeDirectory(n, env);
    ValuesQueue(m, env.getReply, env.rxTime);
    var n1 := HandleRegisterValue(HandleGetRegister(m, env.getReply, env.rxTime));
    SettingQueues(n1, env.setReply, env.rxTime);
    var n2 := HandleSetRegister(n1, env.setReply, env.rxTime);
    OutcomesQueue(n2, env.behind, env.rxTime);
    QueuesChains(n, m, n1, env.rxTime);
    QueuesChains(n, n1, n2, env.rxTime);
    QueuesChains(n, n2, Serve(n, env), env.rxTime);
  }

  // ---- the phases before ----

  lemma JoiningQueues(n: Node, id: byte, user: Callback, now: uint32)
    requires Inv(n) && !OnMesh(n.state)
    ensures Queues(n, Join(n, id, user, now), now)
  {
    hide Inv, Queues, SendRequest, Genuine, Calm;
    ClaimingKeepsInv(n, id, user, now);
    var n1 := Claiming(n, id, user, now);
    HeaderFields(PKT_JOIN, n.request.sequence, id, n.uniqueId, 0);
    var n2 := n1.(packet := HeaderFor(n1, PKT_JOIN));
    PacketIsFree(n1, HeaderFor(n1, PKT_JOIN));
    OwnJoinIsGenuine(n1);
    SameQueues(n, n2, now);
    RequestQueues(n2, now);
    QueuesChains(n, n2, Join(n, id, user, now), now);
  }

  lemma RegardingQueues(n: Node, now: uint32)
    requires Inv(n) && Genuine(Id(n), n.packet)
    ensures Queues(n, Regard(n, now), now)
  {
    hide Inv, Queues, F.Hear, Genuine, HandleConflictName, HandleDeferredJoining, CacheForRepeat, Continues;
    var n1 := ExpireHandled(n);
    SameQueues(n, n1, now);
    ConflictQueues(n1, now);
    var n2 := HandleConflictName(n1, now);
    DeferringQueues(n2, now);
    var n3 := HandleDeferredJoining(n2, now);
    SameQueues(n3, Regard(n, now), now);
    QueuesChains(n, n1, n2, now);
    QueuesChains(n, n2, n3, now);
    QueuesChains(n, n3, Regard(n, now), now);
  }

  lemma ConflictQueues(n: Node, now: uint32)
    requires Inv(n) && Genuine(Id(n), n.packet)
    ensures Queues(n, HandleConflictName(n, now), now)
  {
    hide Inv, Queues, F.Mark, Join, Genuine, Continues;
    if ConflictForUs(n) && n.state == Joining {
      SameQueues(n, MarkHandled(n), now);
      JoiningQueues(MarkHandled(n), NextId(n.nodeId), n.client.callback, now);
      QueuesChains(n, MarkHandled(n), HandleConflictName(n, now), now);
    } else {
      SameQueues(n, n, now);
    }
  }

  lemma DeferringQueues(n: Node, now: uint32)
    requires Inv(n) && Genuine(Id(n), n.packet)
    ensures Queues(n, HandleDeferredJoining(n, now), now)
  {
    hide Inv, Queues, Join, Genuine, Continues;
    if n.state == Joining && MustDefer(n) {
      JoiningQueues(n, NextId(n.nodeId), n.client.callback, now);
    } else {
      SameQueues(n, n, now);
    }
  }

  lemma DefendingQueues(n: Node, now: uint32)
    requires Inv(n) && OnMesh(n.state)
    ensures Queues(n, SendConflict(n, now), now)
  {
    hide Inv, Queues, SendRequest, Genuine, Calm, Continues;
    var p := HeaderFor(n, PKT_CONFLICT_NAME);
    PacketIsFree(n, p);
    OwnConflictIsGenuine(n);
    SameQueues(n, n.(packet := p), now);
    RequestQueues(n.(packet := p), now);
    QueuesChains(n, n.(packet := p), SendConflict(n, now), now);
  }

  lemma ReceivingQueues(n: Node, env: Env)
    requires Inv(n)
    ensures Queues(n, HandleRx(n, env), env.rxTime)
  {
    hide Inv, Queues, Receive, Regard, Serve, SendConflict, Continues;
    match env.rx
    case NoData => SameQueues(n, n, env.rxTime);
    case Corrupt(bytes) => SameQueues(n, n.(packet := bytes), env.rxTime);
    case Received(p) =>
      var n1 := Receive(n, p, env.rxTime);
      ReceiptQueues(n, p, env.rxTime);
      if SeesDuplicateId(n1) {
        DefendingQueues(n1, env.rxTime);
        QueuesChains(n, n1, SendConflict(n1, env.rxTime), env.rxTime);
      } else {
        var n2 := Regard(n1, env.rxTime);
        RegardingQueues(n1, env.rxTime);
        ServingQueues(n2, env);
        QueuesChains(n, n1, n2, env.rxTime);
        QueuesChains(n, n2, Serve(n2, env), env.rxTime);
      }
  }

  lemma ReceiptQueues(n: Node, p: Packet, now: uint32)
    requires Inv(n)
    ensures Queues(n, Receive(n, p, now), now)
  {
    hide Inv, Queues, Continues;
    SameQueues(n, Receive(n, p, now), now);
  }

  /** The timers queue nothing; a JOIN sent again starts the delay anew. */
  lemma TimersQueue(n: Node, env: Env)
    requires Inv(n)
    ensures Queues(n, UpdateTimers(n, env), env.joinTime)
    ensures UpdateTimers(n, env).responses == Q.Stamp(n.responses, UpdateTimers(n, env).responses.lastSent)
  {
    hide Inv, Queues, UpdateJoin, Continues;
    var j := UpdateJoin(n, env.joinTime);
    JoinTimerQueues(n, env.joinTime);
    TimeoutsQueueNothing(j, env);
    SameQueues(j, UpdateTimers(n, env), env.joinTime);
    QueuesChains(n, j, UpdateTimers(n, env), env.joinTime);
  }

  lemma JoinTimerQueues(n: Node, now: uint32)
    requires Inv(n)
    ensures Queues(n, UpdateJoin(n, now), now)
    ensures UpdateJoin(n, now).responses == Q.Stamp(n.responses, UpdateJoin(n, now).responses.lastSent)
  {
    hide Inv, Queues, SendRequest, Genuine, Calm, Continues;
    if n.state == Joining && !(Elapsed(now, n.joinFirstTx) > JOIN_ACCEPT_DELAY) &&
       Elapsed(now, n.request.sentTime) > n.joinRetransmitDelay
    {
      var p := HeaderFor(n, PKT_JOIN);
      PacketIsFree(n, p);
      OwnJoinIsGenuine(n);
      SameQueues(n, n.(packet := p), now);
      RequestQueues(n.(packet := p), now);
      JoinIsNotQueued(n.(packet := p), now);
      QueuesChains(n, n.(packet := p), UpdateJoin(n, now), now);
    } else {
      SameQueues(n, UpdateJoin(n, now), now);
    }
  }

  lemma JoinIsNotQueued(n: Node, now: uint32)
    requires Inv(n) && Genuine(Id(n), n.packet) && !IsReply(Kind(n.packet))
    ensures SendRequest(n, now).responses == Q.Stamp(n.responses, now)
  {
    hide Inv, Genuine, Calm;
  }

  lemma TimeoutsQueueNothing(n: Node, env: Env)
    requires Inv(n)
    ensures var r := CheckTimeouts(UpdatePing(n, env.pingTime), env.timeoutTime);
            r.responses == n.responses && r.history.air == n.history.air
  {
    hide Inv;
  }

  /** The ring as the repeaters find it: what was queued stays, in order, and more may be queued behind. */
  lemma QueueBeforeRepeating(n: Node, env: Env)
    requires Inv(n)
    ensures QueueGrows(n.responses, BeforeRepeating(n, env).responses)
  {
    hide Inv, HandleRx, UpdateTimers, QueueGrows;
    ReceivingQueues(n, env);
    TimersQueue(HandleRx(n, env), env);
    QueueGrowsChains(n.responses, HandleRx(n, env).responses, BeforeRepeating(n, env).responses);
  }

  // ---- one update ----

  /** The node's turn to repeat a response: the delay since it last sent or repeated anything is over. */
  predicate HasResponseTurn(m: Node, env: Env) {
    m.state != NotJoined && Elapsed(env.responseTime, m.responses.lastSent) > ResponseDelay(m, env)
  }

  /** One update, exactly: on its turn, with a response queued, the node repeats the oldest of the least repeated,
      and owes one repeat less; at other times it repeats none. */
  lemma UpdateRepeatsResponse(n: Node, env: Env)
    requires Inv(n)
    ensures var m, q := BeforeRepeating(n, env), Update(n, env).responses;
            Q.QueueInv(m.responses) && Q.QueueInv(q) &&
            (RepeatsResponse(m, env) <==> HasResponseTurn(m, env) && m.responses.size > 0) &&
            if RepeatsResponse(m, env) then
              var k := Q.Chosen(m.responses);
              k < m.responses.size && q == Q.Repeat(m.responses, env.responseTime) && q.lastSent == env.responseTime &&
              (forall j | 0 <= j < m.responses.size :: Q.Live(m.responses, k).count <= Q.Live(m.responses, j).count) &&
              (forall j | 0 <= j < k :: Q.Live(m.responses, k).count < Q.Live(m.responses, j).count) &&
              Q.Owed(q, 0) == Q.Owed(m.responses, 0) - 1
            else q == m.responses
  {
    hide Inv, UpdateRepeaters, BeforeRepeating, Q.Repeat, Q.Chosen, Q.Owed, Q.QueueInv, ResponseDelay, RepeatsRequest;
    var m := BeforeRepeating(n, env);
    QueueSizes(m);
    QueueSizes(Update(n, env));
    RepeatersState(m, env);
    if RepeatsResponse(m, env) {
      QueueIsShaped(m.responses);
      Q.ChosenIsOldestLeast(m.responses);
      Q.RepeatPaysOne(m.responses, env.responseTime);
      RepeatIsStamped(m.responses, env.responseTime);
    }
  }

  lemma RepeatIsStamped(q: Q.Queue, now: uint32)
    requires Q.Shaped(q) && q.size > 0
    ensures Q.Repeat(q, now).lastSent == now
  {
  }

  // ---- runs ----

  /** The node as its repeaters find it in this update. */
  function AtRepeaters(n: Node, a: Action): (r: Node)
    requires Inv(n) && a.DoUpdate?
    ensures Inv(r)
  {
    hide Inv;
    BeforeRepeating(Begin(n), a.env)
  }

  /** Which response an action repeats: its position among all ever queued. */
  function Repetition(n: Node, a: Action): seq<nat>
    requires Inv(n)
  {
    hide Inv, Q.QueueInv, Q.Chosen;
    if a.DoUpdate? && RepeatsResponse(AtRepeaters(n, a), a.env) then
      QueueSizes(AtRepeaters(n, a));
      QueueIsShaped(AtRepeaters(n, a).responses);
      [AtRepeaters(n, a).responses.popped + Q.Chosen(AtRepeaters(n, a).responses)]
    else []
  }

  function RepetitionsIn(n: Node, actions: seq<Action>): seq<nat>
    requires Inv(n) && AllowedRun(n, actions)
    decreases |actions|
  {
    hide Inv, Act, Repetition;
    if actions == [] then [] else Repetition(n, actions[0]) + RepetitionsIn(Act(n, actions[0]), actions[1..])
  }

  function CountOf(s: seq<nat>, t: nat): nat {
    if s == [] then 0 else (if s[0] == t then 1 else 0) + CountOf(s[1..], t)
  }

  lemma {:induction false} CountOfAdds(a: seq<nat>, b: seq<nat>, t: nat)
    ensures CountOf(a + b, t) == CountOf(a, t) + CountOf(b, t)
  {
    if a == [] {
      assert a + b == b;
    } else {
      assert (a + b)[1..] == a[1..] + b;
      CountOfAdds(a[1..], b, t);
    }
  }

  lemma CallQueues(n: Node, a: Action)
    requires Inv(n) && Allowed(n, a) && !a.DoUpdate?
    ensures QueueGrows(n.responses, Act(n, a).responses)
  {
    hide Inv, QueueGrows, Ask, Join, SendResponse, RegisterToPacket, Encodable, Header, Called;
    var b := Begin(n);
    QueueStays(b);
    match a
    case DoJoin(id, user, now) => StartingQueues(b, id, user, now);
    case DoBroadcast(register, now) => BroadcastQueues(b, register, now);
    case DoListen(listening, register) =>
    case _ => AskingQueues(n, a);
  }

  lemma StartingQueues(n: Node, id: byte, user: Callback, now: uint32)
    requires Inv(n) && n.state == NotJoined
    ensures QueueGrows(n.responses, StartJoin(n, id, user, now).responses)
  {
    hide Inv, QueueGrows, Join;
    StartedKeepsInv(n);
    JoiningQueues(n.(history := n.history.(started := n.history.started + 1)), id, user, now);
  }

  lemma StartedKeepsInv(n: Node)
    requires Inv(n)
    ensures Inv(n.(history := n.history.(started := n.history.started + 1)))
  {
    hide F.CacheInv, R.RingInv, Q.QueueInv, Genuine;
  }

  lemma BroadcastQueues(n: Node, reg: Register, now: uint32)
    requires Inv(n)
    ensures QueueGrows(n.responses, Broadcast(n, reg, now).0.responses)
  {
    hide Inv, QueueGrows, SendResponse, RegisterToPacket, Encodable, Called, Genuine;
    QueueStays(n);
    var p := B.BroadcastOf(n, reg);
    var m := n.(packet := p, request := n.request.(sequence := (n.request.sequence + 1) % 16));
    if OnMesh(n.state) && Encodable(reg, true) {
      NumberedIsSound(n, m);
      SendingQueues(m, now);
    }
  }

  lemma NumberedIsSound(n: Node, m: Node)
    requires Inv(n) && Kind(m.packet) == PKT_REGISTER_VALUE
    requires m == n.(packet := m.packet, request := n.request.(sequence := m.request.sequence))
    ensures Inv(m) && Genuine(Id(m), m.packet)
  {
    hide F.CacheInv, R.RingInv, Q.QueueInv;
  }

  lemma AskingQueues(n: Node, a: Action)
    requires Inv(n) && !a.DoUpdate? && !a.DoJoin? && !a.DoBroadcast? && !a.DoListen?
    ensures QueueGrows(n.responses, Act(n, a).responses)
  {
    hide Inv, QueueGrows, Ping, GetNumRegisters, GetRegisterName, GetRegister, SetRegister, StartJoin, Broadcast, Listen,
         RegisterToPacket, Encodable, Header, Called;
    QueueStays(n);
    ShapedQueue(n);
    StampGrows(n.responses, Act(n, a).request.sentTime);
  }

  lemma ActQueues(n: Node, a: Action)
    requires Inv(n) && Allowed(n, a)
    ensures |n.responses.repeats| <= |Act(n, a).responses.repeats|
    ensures forall t | 0 <= t < |n.responses.repeats| ::
              Act(n, a).responses.repeats[t] == n.responses.repeats[t] + CountOf(Repetition(n, a), t)
  {
    hide Inv, Update, Repetition, QueueGrows;
    if a.DoUpdate? {
      UpdateQueues(n, a);
    } else {
      CallQueues(n, a);
      CallCounts(n, a);
    }
  }

  lemma CallCounts(n: Node, a: Action)
    requires Inv(n) && !a.DoUpdate? && Allowed(n, a) && QueueGrows(n.responses, Act(n, a).responses)
    ensures |n.responses.repeats| <= |Act(n, a).responses.repeats|
    ensures forall t | 0 <= t < |n.responses.repeats| ::
              Act(n, a).responses.repeats[t] == n.responses.repeats[t] + CountOf(Repetition(n, a), t)
  {
    hide Inv, Act;
  }

  lemma UpdateQueues(n: Node, a: Action)
    requires Inv(n) && a.DoUpdate?
    ensures |n.responses.repeats| <= |Act(n, a).responses.repeats|
    ensures forall t | 0 <= t < |n.responses.repeats| ::
              Act(n, a).responses.repeats[t] == n.responses.repeats[t] + CountOf(Repetition(n, a), t)
  {
    hide Inv, Update, BeforeRepeating, Q.Repeat, Q.Chosen, Q.Owed, ResponseDelay, HasResponseTurn, RepeatsResponse;
    var m := AtRepeaters(n, a);
    QueueBeforeRepeating(Begin(n), a.env);
    UpdateRepeatsResponse(Begin(n), a.env);
    if RepeatsResponse(m, a.env) { RepeatIsCounted(m.responses, a.env.responseTime); }
  }

  lemma RepeatIsCounted(q: Q.Queue, now: uint32)
    requires Q.QueueInv(q) && q.size > 0
    ensures Q.Chosen(q) < q.size && |q.repeats| == q.popped + q.size &&
            Q.Repeat(q, now).repeats == q.repeats[q.popped + Q.Chosen(q) := q.repeats[q.popped + Q.Chosen(q)] + 1]
  {
    Q.ChosenIsOldestLeast(q);
  }

  /** Over every run, the count kept of each response is the number of times it was repeated. */
  lemma {:induction false} RunCounts(n: Node, actions: seq<Action>)
    requires Inv(n) && AllowedRun(n, actions)
    ensures var before, after := n.responses.repeats, Run(n, actions).responses.repeats;
            |before| <= |after| && forall t | 0 <= t < |before| :: after[t] == before[t] + CountOf(RepetitionsIn(n, actions), t)
    decreases |actions|
  {
    hide Inv, Act, Repetition;
    if actions != [] {
      var r := Act(n, actions[0]);
      ActQueues(n, actions[0]);
      RunCounts(r, actions[1..]);
      forall t | 0 <= t < |n.responses.repeats|
        ensures Run(n, actions).responses.repeats[t] == n.responses.repeats[t] + CountOf(RepetitionsIn(n, actions), t)
      {
        CountOfAdds(Repetition(n, actions[0]), RepetitionsIn(r, actions[1..]), t);
      }
    }
  }

  /** The number of turns to repeat a response that the node has in a run. */
  function ResponseTurns(n: Node, actions: seq<Action>): nat
    requires Inv(n) && AllowedRun(n, actions)
    decreases |actions|
  {
    hide Inv, Act, HasResponseTurn;
    if actions == [] then 0
    else (if actions[0].DoUpdate? && HasResponseTurn(AtRepeaters(n, actions[0]), actions[0].env) then 1 else 0) +
         ResponseTurns(Act(n, actions[0]), actions[1..])
  }

  function OwedBy(n: Node): int
    requires Inv(n)
  {
    hide Inv;
    ShapedQueue(n);
    Q.Owed(n.responses, 0)
  }

  /** Rings that hold the same entries owe the same. */
  lemma {:induction false} SameOwed(q: Q.Queue, r: Q.Queue, k: nat)
    requires QueueGrows(q, r) && q.size == r.size && k <= q.size
    ensures Q.Owed(r, k) == Q.Owed(q, k)
    decreases q.size - k
  {
    if k < q.size { SameOwed(q, r, k + 1); }
  }

  lemma NothingOwed(q: Q.Queue)
    requires Q.QueueInv(q)
    ensures Q.Owed(q, 0) >= 0 && (Q.Owed(q, 0) == 0 <==> q.size == 0)
  {
    Q.OwedIsNat(q, 0);
    if q.size > 0 { Q.OwedIsNat(q, 1); }
  }

  /** An action that queues nothing pays one repeat on its turn, if any is owed. */
  lemma ActPays(n: Node, a: Action)
    requires Inv(n) && Allowed(n, a) && |Act(n, a).responses.repeats| == |n.responses.repeats|
    ensures var turn := a.DoUpdate? && HasResponseTurn(AtRepeaters(n, a), a.env);
            OwedBy(Act(n, a)) == if turn && OwedBy(n) > 0 then OwedBy(n) - 1 else OwedBy(n)
  {
    hide Inv, Update, BeforeRepeating, Q.Repeat, Q.Chosen, Q.Owed, ResponseDelay, HasResponseTurn, RepeatsResponse;
    ShapedQueue(n);
    QueueSizes(n);
    QueueSizes(Act(n, a));
    if a.DoUpdate? {
      var m := AtRepeaters(n, a);
      QueueSizes(m);
      QueueBeforeRepeating(Begin(n), a.env);
      UpdateRepeatsResponse(Begin(n), a.env);
      if RepeatsResponse(m, a.env) { RepeatIsCounted(m.responses, a.env.responseTime); }
      SameOwed(n.responses, m.responses, 0);
      NothingOwed(m.responses);
    } else {
      CallQueues(n, a);
      SameOwed(n.responses, Act(n, a).responses, 0);
    }
  }

  /** Repeating is live: in every run in which no response is queued, each turn pays one of the repeats owed. */
  lemma {:induction false} TurnsPay(n: Node, actions: seq<Action>)
    requires Inv(n) && AllowedRun(n, actions) && |Run(n, actions).responses.repeats| == |n.responses.repeats|
    ensures OwedBy(n) >= 0
    ensures OwedBy(Run(n, actions)) ==
            if ResponseTurns(n, actions) <= OwedBy(n) then OwedBy(n) - ResponseTurns(n, actions) else 0
    decreases |actions|
  {
    hide Inv, Act, OwedBy, HasResponseTurn, Repetition;
    OwedIsNat(n);
    if actions != [] {
      var r := Act(n, actions[0]);
      ActQueues(n, actions[0]);
      RunCounts(r, actions[1..]);
      ActPays(n, actions[0]);
      TurnsPay(r, actions[1..]);
    }
  }

  lemma OwedIsNat(n: Node)
    requires Inv(n)
    ensures OwedBy(n) >= 0 && (OwedBy(n) == 0 <==> n.responses.size == 0)
  {
    hide Inv, Q.Owed;
    QueueSizes(n);
    NothingOwed(n.responses);
  }

  /** Every response is repeated six times: after any run in which none is queued, and which has as many turns as
      there are repeats owed, the ring is empty, and each response that was in it has been repeated in the run
      as often as it takes to make six. */
  lemma EachIsRepeatedSixTimes(n: Node, actions: seq<Action>, k: nat)
    requires Inv(n) && AllowedRun(n, actions) && |Run(n, actions).responses.repeats| == |n.responses.repeats|
    requires ResponseTurns(n, actions) >= OwedBy(n) && k < n.responses.size
    ensures Run(n, actions).responses.size == 0 && Q.Shaped(n.responses)
    ensures CountOf(RepetitionsIn(n, actions), n.responses.popped + k) == 6 - Q.Live(n.responses, k).count
  {
    hide Inv, Run, ResponseTurns, RepetitionsIn, OwedBy, AllowedRun;
    var r := Run(n, actions);
    TurnsPay(n, actions);
    OwedIsNat(r);
    QueueSizes(n);
    QueueSizes(r);
    RunCounts(n, actions);
    var t := n.responses.popped + k;
    assert n.responses.repeats[t] == Q.Live(n.responses, k).count;
    assert r.responses.repeats[t] == 6;
  }

  // ---- what is on the air ----

  /** What an update repeats, exactly: the response chosen, and the request under way. */
  lemma ActRepeats(n: Node, a: Action)
    requires Inv(n) && a.DoUpdate?
    ensures var m := AtRepeaters(n, a);
            (RepeatsResponse(m, a.env) ==> m.responses.size > 0) &&
            PacketsOf(Act(n, a).history.air, Repeats) ==
              (if RepeatsResponse(m, a.env) then [ResponseToRepeat(m, a.env.stray)] else []) +
              (if RepeatsRequest(m, a.env) then [m.request.pending] else [])
  {
    hide Inv, Update, BeforeRepeating, RepeatsResponse, RepeatsRequest, ResponseToRepeat;
    UpdateSends(Begin(n), a.env);
  }

  /** The packets sent in a run to repeat response `t`. */
  function SentFor(n: Node, actions: seq<Action>, t: nat): seq<Packet>
    requires Inv(n) && AllowedRun(n, actions)
    decreases |actions|
  {
    hide Inv, Act, RepeatsResponse, ResponseToRepeat, AtRepeaters, Q.QueueInv;
    if actions == [] then []
    else
      var a := actions[0];
      (if Repetition(n, a) == [t] then QueueSizes(AtRepeaters(n, a)); [ResponseToRepeat(AtRepeaters(n, a), a.env.stray)]
       else []) + SentFor(Act(n, a), actions[1..], t)
  }

  /** While it is in the ring, response `t` is this one. */
  ghost predicate IsAt(q: Q.Queue, t: nat, s: Q.Summary) {
    Q.Shaped(q) && t < q.popped + q.size && (t >= q.popped ==> Q.Live(q, t - q.popped).(count := 0) == s)
  }

  lemma GrowingKeeps(q: Q.Queue, r: Q.Queue, t: nat, s: Q.Summary)
    requires QueueGrows(q, r) && IsAt(q, t, s)
    ensures IsAt(r, t, s)
  {
  }

  lemma RepeatingKeeps(q: Q.Queue, now: uint32, t: nat, s: Q.Summary)
    requires Q.QueueInv(q) && q.size > 0 && IsAt(q, t, s)
    ensures IsAt(Q.Repeat(q, now), t, s)
  {
    hide Q.Chosen, Q.Accounted, Q.Fair;
    var c, r := Q.Count(q, now), Q.Repeat(q, now);
    Q.RepeatKeepsInv(q, now);
    if t >= q.popped { Q.CountChanges(q, now, t - q.popped); }
    if r != c && t >= r.popped { assert Q.Live(r, t - r.popped) == Q.Live(c, t - c.popped); }
  }

  lemma ActKeeps(n: Node, a: Action, t: nat, s: Q.Summary)
    requires Inv(n) && Allowed(n, a) && IsAt(n.responses, t, s)
    ensures IsAt(Act(n, a).responses, t, s)
    ensures a.DoUpdate? ==> IsAt(AtRepeaters(n, a).responses, t, s)
  {
    hide Inv, Update, BeforeRepeating, Q.Repeat, Q.Chosen, Q.Owed, ResponseDelay, HasResponseTurn, RepeatsResponse, IsAt,
         QueueGrows, Q.QueueInv;
    if a.DoUpdate? {
      var m := AtRepeaters(n, a);
      QueueBeforeRepeating(Begin(n), a.env);
      GrowingKeeps(n.responses, m.responses, t, s);
      UpdateRepeatsResponse(Begin(n), a.env);
      if RepeatsResponse(m, a.env) { RepeatingKeeps(m.responses, a.env.responseTime, t, s); }
    } else {
      CallQueues(n, a);
      GrowingKeeps(n.responses, Act(n, a).responses, t, s);
    }
  }

  /** The registers stay as they are throughout the run. */
  predicate RegistersStay(n: Node, actions: seq<Action>)
    requires Inv(n) && AllowedRun(n, actions)
    decreases |actions|
  {
    actions == [] || (Act(n, actions[0]).registers == n.registers && RegistersStay(Act(n, actions[0]), actions[1..]))
  }

  lemma RepeaterIsServer(n: Node, a: Action)
    requires Inv(n) && OnMesh(n.state) && a.DoUpdate?
    ensures var m := AtRepeaters(n, a);
            m.nodeId == n.nodeId && m.uniqueId == n.uniqueId && m.registers == Act(n, a).registers
  {
    hide Inv, HandleRx, UpdateTimers, UpdateRepeaters;
  }

  /** What is sent when response `t` is repeated is its reply, byte for byte, if the reply fits its summary. */
  lemma RepetitionIsReply(n: Node, a: Action, t: nat, s: Node, k: B.ReplyKind, leftover: byte)
    requires Inv(n) && OnMesh(n.state) && a.DoUpdate? && Repetition(n, a) == [t]
    requires B.SameServer(n, s) && Act(n, a).registers == n.registers && B.Sendable(s, k) && B.Summarizable(s, k)
    requires IsAt(n.responses, t, B.SummaryOf(s, B.PacketOf(s, k), 0, leftover))
    ensures AtRepeaters(n, a).responses.size > 0 && ResponseToRepeat(AtRepeaters(n, a), a.env.stray) == B.PacketOf(s, k)
  {
    hide Inv, BeforeRepeating, Update, B.PacketOf, B.Sendable, B.Summarizable, Rebuilt, Q.Chosen, Q.QueueInv, RepeatsResponse, AtRepeaters;
    var m := AtRepeaters(n, a);
    ActKeeps(n, a, t, B.SummaryOf(s, B.PacketOf(s, k), 0, leftover));
    RepeaterIsServer(n, a);
    QueueSizes(m);
    ChosenIsThere(m.responses);
    var count := Q.Live(m.responses, t - m.responses.popped).count;
    B.RebuiltExactly(s, m, k, count, leftover, a.env.stray);
  }

  lemma ChosenIsThere(q: Q.Queue)
    requires Q.QueueInv(q)
    ensures Q.Shaped(q) && (q.size > 0 ==> Q.Chosen(q) < q.size)
  {
    if q.size > 0 { Q.ChosenIsOldestLeast(q); }
  }

  /** All copies of one packet. */
  predicate AllAre(s: seq<Packet>, p: Packet) { forall i | 0 <= i < |s| :: s[i] == p }

  /** A reply that fits its summary is repeated as it was sent, in every run that leaves the registers alone. */
  lemma {:induction false} RepetitionsAreReplies(n: Node, actions: seq<Action>, t: nat, s: Node, k: B.ReplyKind, leftover: byte)
    requires Inv(n) && OnMesh(n.state) && AllowedRun(n, actions) && RegistersStay(n, actions)
    requires B.SameServer(n, s) && B.Sendable(s, k) && B.Summarizable(s, k)
    requires IsAt(n.responses, t, B.SummaryOf(s, B.PacketOf(s, k), 0, leftover))
    ensures |SentFor(n, actions, t)| == CountOf(RepetitionsIn(n, actions), t)
    ensures AllAre(SentFor(n, actions, t), B.PacketOf(s, k))
    decreases |actions|
  {
    hide Inv, Act, B.PacketOf, B.Sendable, B.Summarizable, B.SummaryOf, IsAt, ResponseToRepeat, AtRepeaters, Allowed;
    if actions != [] {
      var a := actions[0];
      ActKeeps(n, a, t, B.SummaryOf(s, B.PacketOf(s, k), 0, leftover));
      RepetitionIsOne(n, a);
      if Repetition(n, a) == [t] { RepetitionIsReply(n, a, t, s, k, leftover); }
      StaysServer(n, a);
      RepetitionsAreReplies(Act(n, a), actions[1..], t, s, k, leftover);
      CountOfAdds(Repetition(n, a), RepetitionsIn(Act(n, a), actions[1..]), t);
    }
  }

  lemma RepetitionIsOne(n: Node, a: Action)
    requires Inv(n)
    ensures |Repetition(n, a)| <= 1 && (Repetition(n, a) != [] ==> a.DoUpdate?)
    ensures forall t: nat :: CountOf(Repetition(n, a), t) == if Repetition(n, a) == [t] then 1 else 0
  {
    hide Inv, RepeatsResponse, AtRepeaters, Q.Chosen;
  }

  lemma StaysServer(n: Node, a: Action)
    requires Inv(n) && OnMesh(n.state) && Allowed(n, a)
    ensures OnMesh(Act(n, a).state) && Act(n, a).nodeId == n.nodeId && Act(n, a).uniqueId == n.uniqueId
  {
    hide Inv, Act;
  }

  /** So every reply is on the air six times more: once sent and queued, it is repeated byte for byte six times in
      any run that leaves the registers alone, queues nothing, and has as many turns as there are repeats owed. */
  lemma ReplyIsRepeatedSixTimes(n: Node, actions: seq<Action>, i: nat, s: Node, k: B.ReplyKind, leftover: byte)
    requires Inv(n) && OnMesh(n.state) && AllowedRun(n, actions) && RegistersStay(n, actions)
    requires B.SameServer(n, s) && B.Sendable(s, k) && B.Summarizable(s, k)
    requires i < n.responses.size && Q.Shaped(n.responses)
    requires Q.Live(n.responses, i) == B.SummaryOf(s, B.PacketOf(s, k), 0, leftover)
    requires |Run(n, actions).responses.repeats| == |n.responses.repeats| && ResponseTurns(n, actions) >= OwedBy(n)
    ensures var sent := SentFor(n, actions, n.responses.popped + i);
            |sent| == 6 && AllAre(sent, B.PacketOf(s, k))
  {
    hide Inv, Act, Run, ResponseTurns, RepetitionsIn, SentFor, OwedBy, AllowedRun, RegistersStay, B.PacketOf, B.Sendable, B.Summarizable;
    EachIsRepeatedSixTimes(n, actions, i);
    RepetitionsAreReplies(n, actions, n.responses.popped + i, s, k, leftover);
  }

  // ---- requests ----

  /** The node's turn to repeat its request. */
  predicate HasRequestTurn(m: Node, env: Env) { Elapsed(env.requestTime, m.request.repeatTime) > RequestDelay(m, env) }

  /** One update, exactly: on its turn the request under way is repeated, if it has been less than four times. */
  lemma UpdateRepeatsRequest(n: Node, env: Env)
    requires Inv(n)
    ensures var m, r := BeforeRepeating(n, env), Update(n, env);
            var repeats := OnMesh(m.state) && m.state != Idle && m.request.repeatCount < 4 && HasRequestTurn(m, env);
            (RepeatsRequest(m, env) <==> repeats) && r.state == m.state &&
            r.request == if repeats
                         then m.request.(repeatTime := env.requestTime, repeatCount := m.request.repeatCount + 1)
                         else m.request
  {
    hide Inv, UpdateRepeaters, BeforeRepeating, ResponseDelay, RepeatsResponse;
    RepeatersState(BeforeRepeating(n, env), env);
  }

  lemma TimersKeepRequest(n: Node, env: Env)
    requires Inv(n) && OnMesh(n.state)
    ensures UpdateTimers(n, env).request == n.request
  {
    hide Inv, UpdatePing, CheckTimeouts;
  }

  /** On the mesh, only a duplicate of the node's id makes an update send a new request. */
  lemma RequestStays(n: Node, env: Env)
    requires Inv(n) && OnMesh(n.state) && !IsDuplicate(n, env.rx)
    ensures BeforeRepeating(n, env).request == n.request
  {
    hide Inv, HandleRx, UpdateTimers;
    ReceivingOnMesh(n, env);
    TimersKeepRequest(HandleRx(n, env), env);
  }

  /** The operation goes on, and nobody else uses the node's id. */
  predicate GoesOn(n: Node, actions: seq<Action>)
    requires Inv(n) && AllowedRun(n, actions)
    decreases |actions|
  {
    actions == [] ||
    (Act(n, actions[0]).state == n.state && (actions[0].DoUpdate? ==> !IsDuplicate(n, actions[0].env.rx)) &&
     GoesOn(Act(n, actions[0]), actions[1..]))
  }

  /** The requests repeated in a run. */
  function RequestsIn(n: Node, actions: seq<Action>): seq<Packet>
    requires Inv(n) && AllowedRun(n, actions)
    decreases |actions|
  {
    hide Inv, Act, RepeatsRequest, AtRepeaters;
    if actions == [] then []
    else
      var a := actions[0];
      (if a.DoUpdate? && RepeatsRequest(AtRepeaters(n, a), a.env) then [AtRepeaters(n, a).request.pending] else []) +
      RequestsIn(Act(n, a), actions[1..])
  }

  function RequestTurns(n: Node, actions: seq<Action>): nat
    requires Inv(n) && AllowedRun(n, actions)
    decreases |actions|
  {
    hide Inv, Act, HasRequestTurn, AtRepeaters;
    if actions == [] then 0
    else (if actions[0].DoUpdate? && HasRequestTurn(AtRepeaters(n, actions[0]), actions[0].env) then 1 else 0) +
         RequestTurns(Act(n, actions[0]), actions[1..])
  }

  lemma ActRepeatsRequest(n: Node, a: Action)
    requires Inv(n) && OnMesh(n.state) && n.state != Idle && Allowed(n, a) && Act(n, a).state == n.state
    requires a.DoUpdate? ==> !IsDuplicate(n, a.env.rx)
    ensures var r := Act(n, a).request;
            var repeats := a.DoUpdate? && HasRequestTurn(AtRepeaters(n, a), a.env) && n.request.repeatCount < 4;
            r.pending == n.request.pending && r.repeatCount == n.request.repeatCount + (if repeats then 1 else 0) &&
            (a.DoUpdate? ==> (RepeatsRequest(AtRepeaters(n, a), a.env) <==> repeats) &&
                             AtRepeaters(n, a).request.pending == n.request.pending)
  {
    hide Inv, Update, BeforeRepeating, RepeatsRequest, HasRequestTurn;
    if a.DoUpdate? {
      UpdateRepeatsRequest(Begin(n), a.env);
      RequestStays(Begin(n), a.env);
    } else {
      BusyCallKeepsRequest(n, a);
    }
  }

  lemma BusyCallKeepsRequest(n: Node, a: Action)
    requires Inv(n) && OnMesh(n.state) && n.state != Idle && Allowed(n, a) && !a.DoUpdate?
    ensures Act(n, a).request == n.request.(sequence := Act(n, a).request.sequence)
  {
    hide Inv, RegisterToPacket, Encodable, SendResponse, Ping, GetNumRegisters, GetRegisterName, GetRegister, SetRegister,
         StartJoin;
  }

  /** A request is repeated on each turn, as it was sent, up to four times in all, while its operation goes on. */
  lemma {:induction false} RequestIsRepeated(n: Node, actions: seq<Action>)
    requires Inv(n) && OnMesh(n.state) && n.state != Idle && n.request.repeatCount <= 4
    requires AllowedRun(n, actions) && GoesOn(n, actions)
    ensures var sent, left, turns := RequestsIn(n, actions), 4 - n.request.repeatCount, RequestTurns(n, actions);
            |sent| == (if turns <= left then turns else left) && AllAre(sent, n.request.pending)
    ensures Run(n, actions).request.repeatCount == n.request.repeatCount + |RequestsIn(n, actions)|
    decreases |actions|
  {
    hide Inv, Act, RepeatsRequest, HasRequestTurn, AtRepeaters;
    if actions != [] {
      ActRepeatsRequest(n, actions[0]);
      RequestIsRepeated(Act(n, actions[0]), actions[1..]);
    }
  }

  /** So a new request is repeated exactly four times, if its operation goes on for four turns. */
  lemma CalledRequestIsRepeated(n: Node, a: Action, actions: seq<Action>)
    requires Inv(n) && n.state == Idle && Allowed(n, a)
    requires a.DoPing? || a.DoGetNumRegisters? || a.DoGetRegisterName? ||
             (a.DoGetRegister? && Encodable(a.register, false)) || (a.DoSetRegister? && Encodable(a.register, true))
    requires AllowedRun(Act(n, a), actions) && GoesOn(Act(n, a), actions) && RequestTurns(Act(n, a), actions) >= 4
    ensures |Act(n, a).history.air| == 1
    ensures var sent := RequestsIn(Act(n, a), actions);
            |sent| == 4 && AllAre(sent, Act(n, a).history.air[0].packet)
  {
    hide Inv, RequestsIn, RequestTurns, GoesOn, AllowedRun, Called, RegisterToPacket, Encodable, Header, Ping, GetNumRegisters,
         GetRegisterName, GetRegister, SetRegister, StartJoin, Broadcast, Listen;
    RequestIsRepeated(Act(n, a), actions);
  }
}
