/** What a node repeats, over any run: every repeated packet is one it sent before, byte for byte, or stands for
    a broadcast, as long as its registers stay as they are and its replies fit their summaries. */
module Repeats {
  import opened Bytes
  import opened Packets
  import opened Registers
  import opened Model
  import opened Operations
  import opened Joining
  import F = Filter
  import R = Relay
  import Q = Responses
  import P = Presence
  import B = Rebuild
  import S = Server

  /** A reply that its summary can hold: a name, if it is a name reply, and no error text. */
  predicate Whole(p: Packet) {
    !(Kind(p) == PKT_REGISTER_NAME && p[DATA_AT] == 0) && !(Kind(p) == PKT_SET_REGISTER_ACK && p[ERR_MSG_AT] != 0)
  }

  /** `sent` holds all the node originated, and the replies among it are whole. */
  predicate Covers(sent: iset<Packet>, air: seq<Tx>) {
    forall k | 0 <= k < |air| && air[k].origin == Originated ::
      air[k].packet in sent && (IsReply(Kind(air[k].packet)) ==> Whole(air[k].packet))
  }

  /** What is repeated was sent before; the request buffer is zero before the first request. */
  predicate RepeatsSent(sent: iset<Packet>, air: seq<Tx>) {
    forall k | 0 <= k < |air| && air[k].origin == Repeated :: air[k].packet in sent || air[k].packet == ZeroPacket()
  }

  /** Whatever lies behind the registers, the summary gives back a packet that was sent. */
  ghost predicate Recalls(n: Node, s: Q.Summary, sent: iset<Packet>) {
    (s.op == 0 || IsReply(s.op)) && forall memory: Register :: Rebuilt(n, s, memory) in sent
  }

  ghost predicate QueueRecalls(n: Node, sent: iset<Packet>)
    requires Q.Shaped(n.responses)
  {
    forall k | 0 <= k < n.responses.size :: Recalls(n, Q.Live(n.responses, k), sent)
  }

  /** All the node has to repeat, and all it has repeated in this call, was sent before. */
  ghost predicate Kept(n: Node, sent: iset<Packet>) {
    Q.Shaped(n.responses) && QueueRecalls(n, sent) && (n.responses.size > 0 ==> OnMesh(n.state)) &&
    (n.request.pending in sent || n.request.pending == ZeroPacket()) && RepeatsSent(sent, n.history.air)
  }

  lemma RebuiltDepends(n: Node, m: Node, s: Q.Summary, memory: Register)
    requires B.SameServer(m, n) && (s.op == 0 || IsReply(s.op))
    ensures Rebuilt(m, s, memory) == Rebuilt(n, s, memory)
  {
    hide Filled;
    assert WithSequence(HeaderFor(m, s.op), s.sequence) == WithSequence(HeaderFor(n, s.op), s.sequence);
  }

  lemma RecallsDepends(n: Node, m: Node, s: Q.Summary, sent: iset<Packet>)
    requires B.SameServer(m, n) && Recalls(n, s, sent)
    ensures Recalls(m, s, sent)
  {
    hide Rebuilt;
    forall memory: Register ensures Rebuilt(m, s, memory) in sent { RebuiltDepends(n, m, s, memory); }
  }

  /** The rings hold the same entries. */
  predicate SameEntries(a: Q.Queue, b: Q.Queue) { b == Q.Stamp(a, b.lastSent) }

  lemma SameEntriesRecall(n: Node, m: Node, sent: iset<Packet>)
    requires Q.Shaped(n.responses) && QueueRecalls(n, sent) && SameEntries(n.responses, m.responses)
    requires n.responses.size > 0 ==> B.SameServer(m, n)
    ensures Q.Shaped(m.responses) && m.responses.size == n.responses.size && QueueRecalls(m, sent)
  {
    hide Recalls, Rebuilt;
    forall k | 0 <= k < n.responses.size ensures Recalls(m, Q.Live(m.responses, k), sent) {
      assert Q.Live(m.responses, k) == Q.Live(n.responses, k);
      RecallsDepends(n, m, Q.Live(n.responses, k), sent);
    }
  }

  /** A step that leaves the ring's entries, the request kept and what was repeated as they are. */
  ghost predicate Quiet(n: Node, r: Node) {
    SameEntries(n.responses, r.responses) && (OnMesh(n.state) ==> OnMesh(r.state) && B.SameServer(r, n)) &&
    r.request.pending == n.request.pending && n.history.air <= r.history.air &&
    forall k | |n.history.air| <= k < |r.history.air| :: r.history.air[k].origin != Repeated
  }

  lemma QuietKeeps(n: Node, r: Node, sent: iset<Packet>)
    requires Kept(n, sent) && Quiet(n, r)
    ensures Kept(r, sent)
  {
    hide Recalls, QueueRecalls, B.SameServer;
    SameEntriesRecall(n, r, sent);
    forall k | 0 <= k < |r.history.air| && r.history.air[k].origin == Repeated
      ensures r.history.air[k].packet in sent || r.history.air[k].packet == ZeroPacket()
    {
      assert r.history.air[k] == n.history.air[k];
    }
  }

  // ---- sending ----

  /** A reply, once sent, can be recalled. */
  lemma ReplyKeeps(n: Node, k: B.ReplyKind, now: uint32, sent: iset<Packet>)
    requires Inv(n) && OnMesh(n.state) && Kept(n, sent) && B.Sendable(n, k)
    requires Covers(sent, Reply(n, B.PacketOf(n, k), now).history.air)
    ensures Kept(Reply(n, B.PacketOf(n, k), now), sent)
  {
    hide Inv, Recalls, B.PacketOf, Whole, Calm;
    var p := B.PacketOf(n, k);
    var r := Reply(n, p, now);
    assert r.history.air[|n.history.air|] == Tx(Originated, p);
    assert p in sent && Whole(p);
    assert B.Summarizable(n, k) by { WholeIsSummarizable(n, k); }
    QueueAfterReply(n, k, now, sent);
    assert forall j | 0 <= j < |n.history.air| :: r.history.air[j] == n.history.air[j];
  }

  lemma WholeIsSummarizable(n: Node, k: B.ReplyKind)
    requires B.Sendable(n, k) && Whole(B.PacketOf(n, k))
    ensures B.Summarizable(n, k)
  {
    hide WellFormed, RegisterToPacket;
    match k
    case NameOf(index) =>
    case Ack(target, o) => AckByte(n, target, o);
    case _ =>
  }

  lemma AckByte(n: Node, target: byte, o: SetOutcome)
    ensures SetAck(n, target, o)[ERR_MSG_AT] == if o.error then o.cache.data[0] else 0
  {
  }

  lemma QueueAfterReply(n: Node, k: B.ReplyKind, now: uint32, sent: iset<Packet>)
    requires Inv(n) && Kept(n, sent) && B.Sendable(n, k) && B.Summarizable(n, k) && B.PacketOf(n, k) in sent
    ensures var r := Reply(n, B.PacketOf(n, k), now);
            Q.Shaped(r.responses) && QueueRecalls(r, sent) && r.request == n.request
  {
    hide Inv, Recalls, B.PacketOf, Calm, B.Sendable, Q.Append, Rebuilt;
    var p := B.PacketOf(n, k);
    var r := Reply(n, p, now);
    var q := n.responses;
    RingIsFine(n);
    Q.AppendIsNewest(q, Kind(p), Sequence(p), SummaryData(p, n.registers), SummaryHasData(Kind(p)));
    RespondedQueue(n, p, now);
    assert B.SameServer(r, n);
    forall j | 0 <= j < r.responses.size ensures Recalls(r, Q.Live(r.responses, j), sent) {
      if j < q.size {
        RecallsDepends(n, r, Q.Live(q, j), sent);
      } else {
        NewestRecalls(n, r, k, Q.Live(q, q.size).data, sent);
      }
    }
  }

  lemma RingIsFine(n: Node)
    requires Inv(n)
    ensures Q.Shaped(n.responses)
  {
  }

  /** The ring after a reply is the ring with its summary appended. */
  lemma RespondedQueue(n: Node, p: Packet, now: uint32)
    requires Inv(n) && IsReply(Kind(p))
    ensures var q := Q.Append(n.responses, Kind(p), Sequence(p), SummaryData(p, n.registers), SummaryHasData(Kind(p)));
            SameEntries(q, Reply(n, p, now).responses)
  {
    hide Inv, Q.Append;
  }

  lemma NewestRecalls(n: Node, r: Node, k: B.ReplyKind, leftover: byte, sent: iset<Packet>)
    requires B.SameServer(r, n) && B.Sendable(n, k) && B.Summarizable(n, k) && B.PacketOf(n, k) in sent
    ensures Recalls(r, B.SummaryOf(n, B.PacketOf(n, k), 0, leftover), sent)
  {
    hide Rebuilt, B.PacketOf, B.Sendable, B.Summarizable;
    forall memory: Register ensures Rebuilt(r, B.SummaryOf(n, B.PacketOf(n, k), 0, leftover), memory) in sent {
      B.RebuiltExactly(n, r, k, 0, leftover, memory);
    }
  }

  lemma CoversPart(sent: iset<Packet>, air: seq<Tx>, more: seq<Tx>)
    requires Covers(sent, more) && air <= more
    ensures Covers(sent, air)
  {
    hide Whole;
    forall k | 0 <= k < |air| && air[k].origin == Originated
      ensures air[k].packet in sent && (IsReply(Kind(air[k].packet)) ==> Whole(air[k].packet))
    {
      assert more[k] == air[k];
    }
  }

  /** A request, JOIN or CONFLICT_NAME, once sent, may be repeated. */
  lemma RequestKeeps(n: Node, now: uint32, sent: iset<Packet>)
    requires Inv(n) && Genuine(Id(n), n.packet) && Kept(n, sent) && !IsReply(Kind(n.packet))
    requires Covers(sent, SendRequest(n, now).history.air)
    ensures Kept(SendRequest(n, now), sent)
  {
    hide Inv, Genuine, Recalls, QueueRecalls, Whole, Calm;
    var r := SendRequest(n, now);
    assert r.history.air[|n.history.air|] == Tx(Originated, n.packet);
    SameEntriesRecall(n, r, sent);
    assert forall j | 0 <= j < |n.history.air| :: r.history.air[j] == n.history.air[j];
  }

  // ---- the handlers ----

  lemma MarkingKeeps(n: Node, sent: iset<Packet>)
    requires Inv(n) && Kept(n, sent) && (Kind(n.packet) <= 1 || !F.Seen(n.filter, HeaderOf(n.packet)))
    ensures Kept(MarkHandled(n), sent)
  {
    hide Inv, Kept, F.Mark, Calm;
    QuietKeeps(n, MarkHandled(n), sent);
  }

  /** A node on the mesh, with registers it can serve. */
  predicate Serves(n: Node) { OnMesh(n.state) && |n.registers| <= 255 && WellFormed(n.registers) }

  lemma PingKeeps(n: Node, now: uint32, sent: iset<Packet>)
    requires Inv(n) && Serves(n) && Kept(n, sent) && Covers(sent, HandlePing(n, now).history.air)
    ensures Kept(HandlePing(n, now), sent)
  {
    hide Inv, Kept, F.Mark, F.Seen, Reply, Calm, Covers, WellFormed;
    if n.uniqueId != UniqueId(n.packet) && Passes(n, PKT_PING) {
      MarkingKeeps(n, sent);
      ReplyKeeps(MarkHandled(n), B.Pong, now, sent);
    }
  }

  lemma CountKeeps(n: Node, now: uint32, sent: iset<Packet>)
    requires Inv(n) && Serves(n) && Kept(n, sent) && Covers(sent, HandleGetNumRegisters(n, now).history.air)
    ensures Kept(HandleGetNumRegisters(n, now), sent)
  {
    hide Inv, Kept, F.Mark, F.Seen, Reply, Calm, Covers, WellFormed;
    if Passes(n, PKT_GET_NUM_REGISTERS) && Target(n.packet) == n.nodeId {
      MarkingKeeps(n, sent);
      ReplyKeeps(MarkHandled(n), B.NumRegisters, now, sent);
    }
  }

  lemma NameKeeps(n: Node, now: uint32, sent: iset<Packet>)
    requires Inv(n) && Serves(n) && Kept(n, sent) && Covers(sent, HandleGetRegisterName(n, now).history.air)
    ensures Kept(HandleGetRegisterName(n, now), sent)
  {
    hide Inv, Kept, F.Mark, F.Seen, Reply, Calm, Covers, WellFormed, RegisterToPacket;
    if Passes(n, PKT_GET_REGISTER_NAME) && Target(n.packet) == n.nodeId {
      MarkingKeeps(n, sent);
      ReplyKeeps(MarkHandled(n), B.NameOf(n.packet[REG_INDEX_AT]), now, sent);
    }
  }

  lemma GetKeeps(n: Node, getReply: Register, now: uint32, sent: iset<Packet>)
    requires Inv(n) && Serves(n) && Kept(n, sent) && HandleGetRegister(n, getReply, now).registers == n.registers
    requires Covers(sent, HandleGetRegister(n, getReply, now).history.air)
    ensures Kept(HandleGetRegister(n, getReply, now), sent)
  {
    hide Inv, Kept, F.Mark, F.Seen, Reply, Calm, Covers, WellFormed, RegisterToPacket, FindRegister, Refreshed;
    if Passes(n, PKT_GET_REGISTER) && FindRegister(n.packet, n.registers, 0).Some? {
      var i := FindRegister(n.packet, n.registers, 0).value;
      MarkingKeeps(n, sent);
      assert n.registers[i] == Refreshed(n.registers[i], getReply) by { GetLeaves(n, i, getReply, now); }
      assert MarkHandled(n).(registers := n.registers[i := Refreshed(n.registers[i], getReply)]) == MarkHandled(n);
      ReplyKeeps(MarkHandled(n), B.ValueOf(i), now, sent);
    }
  }

  lemma GetLeaves(n: Node, i: nat, getReply: Register, now: uint32)
    requires Inv(n) && OnMesh(n.state) && Passes(n, PKT_GET_REGISTER)
    requires i < |n.registers| && FindRegister(n.packet, n.registers, 0) == Some(i)
    ensures var rs := HandleGetRegister(n, getReply, now).registers;
            i < |rs| && rs[i] == Refreshed(n.registers[i], getReply)
  {
    hide Inv, F.Mark, F.Seen, RegisterToPacket, FindRegister, Refreshed;
  }

  lemma SetKeeps(n: Node, reply: SetReply, now: uint32, sent: iset<Packet>)
    requires Inv(n) && Serves(n) && Kept(n, sent) && HandleSetRegister(n, reply, now).registers == n.registers
    requires Covers(sent, HandleSetRegister(n, reply, now).history.air)
    ensures Kept(HandleSetRegister(n, reply, now), sent)
  {
    hide Inv, Kept, F.Mark, F.Seen, Reply, Calm, Covers, WellFormed, SetRequested, FindRegister, SetAck, StoreOutcome;
    if Passes(n, PKT_SET_REGISTER) && FindRegister(n.packet, n.registers, 0).Some? {
      var i := FindRegister(n.packet, n.registers, 0).value;
      var o := SetRequested(n.packet, n.registers[i], n.client.register, reply);
      MarkingKeeps(n, sent);
      var stored := StoreOutcome(MarkHandled(n), i, o);
      QuietKeeps(MarkHandled(n), stored, sent);
      assert SetAck(stored, Sender(n.packet), o) == SetAck(n, Sender(n.packet), o) by { B.AckDepends(n, stored, Sender(n.packet), o); }
      ReplyKeeps(stored, B.Ack(Sender(n.packet), o), now, sent);
    }
  }

  lemma DirectoryIsQuiet(n: Node, strayByte: byte)
    requires Inv(n)
    ensures Quiet(n, HandlePong(n)) && Quiet(n, HandleNumRegisters(n)) && Quiet(n, HandleRegisterName(n, strayByte))
  {
    hide Inv, PacketToRegister, Decodable, RegisterIndex;
  }

  lemma RegistersAreQuiet(n: Node, behind: Behind)
    requires Inv(n)
    ensures Quiet(n, HandleRegisterValue(n)) && Quiet(n, HandleSetRegisterAck(n)) && Quiet(n, HandleBroadcast(n, behind))
  {
    hide Inv, PacketToRegister, Decodable, NameAndValueMatch, NameMatches, StrNCpy, Patch, F.Mark, F.Seen;
  }

  // ---- the phases of an update ----

  lemma DirectoryKeeps(n: Node, env: Env, sent: iset<Packet>)
    requires Inv(n) && Serves(n) && Kept(n, sent) && Covers(sent, ServeDirectory(n, env).history.air)
    ensures Kept(ServeDirectory(n, env), sent)
  {
    hide Inv, Kept, Quiet, Covers, WellFormed, HandlePing, HandlePong, HandleGetNumRegisters, HandleNumRegisters,
         HandleGetRegisterName, HandleRegisterName;
    var air, now := ServeDirectory(n, env).history.air, env.rxTime;
    var n1 := HandlePing(n, now);
    var n2 := HandlePong(n1);
    var n3 := HandleGetNumRegisters(n2, now);
    var n4 := HandleNumRegisters(n3);
    var n5 := HandleGetRegisterName(n4, now);
    CoversPart(sent, n1.history.air, air);
    PingKeeps(n, now, sent);
    DirectoryIsQuiet(n1, env.strayByte);
    QuietKeeps(n1, n2, sent);
    CoversPart(sent, n3.history.air, air);
    CountKeeps(n2, now, sent);
    DirectoryIsQuiet(n3, env.strayByte);
    QuietKeeps(n3, n4, sent);
    CoversPart(sent, n5.history.air, air);
    NameKeeps(n4, now, sent);
    DirectoryIsQuiet(n5, env.strayByte);
    QuietKeeps(n5, HandleRegisterName(n5, env.strayByte), sent);
  }

  /** At most one of the two handlers that change registers does, so neither did if nothing changed. */
  lemma RegistersSettle(n: Node, env: Env)
    requires Inv(n) && ServeRegisters(n, env).registers == n.registers
    ensures var n1 := HandleGetRegister(n, env.getReply, env.rxTime);
            n1.registers == n.registers &&
            HandleSetRegister(HandleRegisterValue(n1), env.setReply, env.rxTime).registers == n.registers
  {
    hide Inv, HandleSetRegisterAck, HandleBroadcast, FindRegister, F.Seen, F.Mark, SetRequested, RegisterToPacket, NameMatches,
         PacketToRegister, Decodable;
  }

  lemma RegistersKeep(n: Node, env: Env, sent: iset<Packet>)
    requires Inv(n) && Serves(n) && Kept(n, sent) && Covers(sent, ServeRegisters(n, env).history.air)
    requires ServeRegisters(n, env).registers == n.registers
    ensures Kept(ServeRegisters(n, env), sent)
  {
    hide Inv, Kept, Quiet, Covers, WellFormed, HandleGetRegister, HandleRegisterValue, HandleSetRegister,
         HandleSetRegisterAck, HandleBroadcast;
    var air, now := ServeRegisters(n, env).history.air, env.rxTime;
    var n1 := HandleGetRegister(n, env.getReply, now);
    var n2 := HandleRegisterValue(n1);
    var n3 := HandleSetRegister(n2, env.setReply, now);
    var n4 := HandleSetRegisterAck(n3);
    RegistersSettle(n, env);
    CoversPart(sent, n1.history.air, air);
    GetKeeps(n, env.getReply, now, sent);
    RegistersAreQuiet(n1, env.behind);
    QuietKeeps(n1, n2, sent);
    CoversPart(sent, n3.history.air, air);
    SetKeeps(n2, env.setReply, now, sent);
    RegistersAreQuiet(n3, env.behind);
    QuietKeeps(n3, n4, sent);
    RegistersAreQuiet(n4, env.behind);
    QuietKeeps(n4, HandleBroadcast(n4, env.behind), sent);
  }

  lemma ServingKeeps(n: Node, env: Env, sent: iset<Packet>)
    requires Inv(n) && |n.registers| <= 255 && WellFormed(n.registers) && Kept(n, sent)
    requires Covers(sent, Serve(n, env).history.air) && Serve(n, env).registers == n.registers
    ensures Kept(Serve(n, env), sent)
  {
    hide Inv, Kept, Covers, WellFormed, ServeDirectory, ServeRegisters;
    if OnMesh(n.state) {
      var m := ServeDirectory(n, env);
      CoversPart(sent, m.history.air, Serve(n, env).history.air);
      DirectoryKeeps(n, env, sent);
      RegistersKeep(m, env, sent);
    } else {
      OffMeshIsDeaf(n, env);
    }
  }

  lemma JoiningKeeps(n: Node, id: byte, user: Callback, now: uint32, sent: iset<Packet>)
    requires Inv(n) && !OnMesh(n.state) && Kept(n, sent) && Covers(sent, Join(n, id, user, now).history.air)
    ensures Kept(Join(n, id, user, now), sent)
  {
    hide Inv, Recalls, Genuine, SendRequest, Covers, Whole;
    ClaimingKeepsInv(n, id, user, now);
    var n1 := Claiming(n, id, user, now);
    OwnJoinIsGenuine(n1);
    var n2 := n1.(packet := HeaderFor(n1, PKT_JOIN));
    PacketIsFree(n1, n2.packet);
    assert Kept(n2, sent);
    RequestKeeps(n2, now, sent);
  }

  /** The filter, the join handlers and the relay. */
  lemma RegardingKeeps(n: Node, now: uint32, sent: iset<Packet>)
    requires Inv(n) && Genuine(Id(n), n.packet) && Kept(n, sent) && Covers(sent, Regard(n, now).history.air)
    ensures Kept(Regard(n, now), sent)
  {
    hide Inv, Kept, Quiet, Covers, Genuine, HandleConflictName, HandleDeferredJoining, CacheForRepeat, F.Hear;
    var n1 := ExpireHandled(n);
    var n2 := HandleConflictName(n1, now);
    var n3 := HandleDeferredJoining(n2, now);
    FilterIsQuiet(n);
    QuietKeeps(n, n1, sent);
    CoversPart(sent, n2.history.air, n3.history.air);
    ConflictKeeps(n1, now, sent);
    DeferringKeeps(n2, now, sent);
    RelayIsQuiet(n3);
    QuietKeeps(n3, CacheForRepeat(n3), sent);
  }

  lemma FilterIsQuiet(n: Node)
    requires Inv(n)
    ensures Quiet(n, ExpireHandled(n))
  {
    hide Inv, F.Hear;
  }

  lemma RelayIsQuiet(n: Node)
    requires Inv(n) && Genuine(Id(n), n.packet)
    ensures Quiet(n, CacheForRepeat(n))
  {
    hide Inv, R.Offer, NotForRelay, Genuine;
  }

  lemma ConflictKeeps(n: Node, now: uint32, sent: iset<Packet>)
    requires Inv(n) && Genuine(Id(n), n.packet) && Kept(n, sent) && Covers(sent, HandleConflictName(n, now).history.air)
    ensures Kept(HandleConflictName(n, now), sent)
  {
    hide Inv, Kept, Covers, Genuine, Join, F.Mark, F.Seen;
    if ConflictForUs(n) && n.state == Joining {
      MarkingKeeps(n, sent);
      JoiningKeeps(MarkHandled(n), NextId(n.nodeId), n.client.callback, now, sent);
    }
  }

  lemma DeferringKeeps(n: Node, now: uint32, sent: iset<Packet>)
    requires Inv(n) && Genuine(Id(n), n.packet) && Kept(n, sent) && Covers(sent, HandleDeferredJoining(n, now).history.air)
    ensures Kept(HandleDeferredJoining(n, now), sent)
  {
    hide Inv, Kept, Covers, Genuine, Join;
    if n.state == Joining && MustDefer(n) { JoiningKeeps(n, NextId(n.nodeId), n.client.callback, now, sent); }
  }

  lemma ReceivingKeeps(n: Node, env: Env, sent: iset<Packet>)
    requires Inv(n) && |n.registers| <= 255 && WellFormed(n.registers) && Kept(n, sent)
    requires Covers(sent, HandleRx(n, env).history.air) && HandleRx(n, env).registers == n.registers
    ensures Kept(HandleRx(n, env), sent)
  {
    hide Inv, Kept, Quiet, Covers, WellFormed, Genuine, Receive, Regard, Serve, SendConflict;
    match env.rx {
      case NoData =>
      case Corrupt(bytes) => BufferIsQuiet(n, bytes); QuietKeeps(n, n.(packet := bytes), sent);
      case Received(p) =>
        var n1 := Receive(n, p, env.rxTime);
        ReceiveIsQuiet(n, p, env.rxTime);
        QuietKeeps(n, n1, sent);
        if SeesDuplicateId(n1) {
          DefendingKeeps(n1, env.rxTime, sent);
        } else {
          var n2 := Regard(n1, env.rxTime);
          CoversPart(sent, n2.history.air, Serve(n2, env).history.air);
          RegardingKeeps(n1, env.rxTime, sent);
          ServingKeeps(n2, env, sent);
        }
    }
  }

  lemma BufferIsQuiet(n: Node, bytes: Packet)
    ensures Quiet(n, n.(packet := bytes))
  {
  }

  lemma ReceiveIsQuiet(n: Node, p: Packet, now: uint32)
    requires Inv(n)
    ensures Quiet(n, Receive(n, p, now))
  {
    hide Inv;
  }

  lemma DefendingKeeps(n: Node, now: uint32, sent: iset<Packet>)
    requires Inv(n) && OnMesh(n.state) && Kept(n, sent) && Covers(sent, SendConflict(n, now).history.air)
    ensures Kept(SendConflict(n, now), sent)
  {
    hide Inv, Kept, Quiet, Covers, Genuine, SendRequest;
    var m := n.(packet := HeaderFor(n, PKT_CONFLICT_NAME));
    OwnConflictIsGenuine(n);
    PacketIsFree(n, m.packet);
    BufferIsQuiet(n, m.packet);
    QuietKeeps(n, m, sent);
    RequestKeeps(m, now, sent);
  }

  lemma TimersKeep(n: Node, env: Env, sent: iset<Packet>)
    requires Inv(n) && Kept(n, sent) && Covers(sent, UpdateTimers(n, env).history.air)
    ensures Kept(UpdateTimers(n, env), sent)
  {
    hide Inv, Kept, Quiet, Covers, UpdateJoin, UpdatePing, CheckTimeouts;
    var n1 := UpdateJoin(n, env.joinTime);
    var n2 := UpdatePing(n1, env.pingTime);
    TimeoutsAreQuiet(n1, env.pingTime);
    TimeoutsAreQuiet(n2, env.timeoutTime);
    CoversPart(sent, n1.history.air, UpdateTimers(n, env).history.air);
    JoinTimerKeeps(n, env.joinTime, sent);
    QuietKeeps(n1, n2, sent);
    QuietKeeps(n2, CheckTimeouts(n2, env.timeoutTime), sent);
  }

  lemma TimeoutsAreQuiet(n: Node, now: uint32)
    requires Inv(n)
    ensures Quiet(n, UpdatePing(n, now)) && Quiet(n, CheckTimeouts(n, now))
  {
    hide Inv;
  }

  lemma JoinTimerKeeps(n: Node, now: uint32, sent: iset<Packet>)
    requires Inv(n) && Kept(n, sent) && Covers(sent, UpdateJoin(n, now).history.air)
    ensures Kept(UpdateJoin(n, now), sent)
  {
    hide Inv, Kept, Covers, Genuine, SendRequest, Recalls;
    if n.state == Joining {
      if Elapsed(now, n.joinFirstTx) > JOIN_ACCEPT_DELAY {
        AcceptedKeepsInv(n);
        assert Quiet(n, Accepted(n));
        QuietKeeps(n, Accepted(n), sent);
      } else if Elapsed(now, n.request.sentTime) > n.joinRetransmitDelay {
        var m := n.(packet := HeaderFor(n, PKT_JOIN));
        OwnJoinIsGenuine(n);
        PacketIsFree(n, m.packet);
        BufferIsQuiet(n, m.packet);
        QuietKeeps(n, m, sent);
        RequestKeeps(m, now, sent);
      }
    }
  }

  // ---- repeating ----

  lemma RecallsIgnoresCount(n: Node, s: Q.Summary, count: byte, sent: iset<Packet>)
    requires Recalls(n, s, sent)
    ensures Recalls(n, s.(count := count), sent)
  {
    hide Filled, HeaderFor;
    forall memory: Register ensures Rebuilt(n, s.(count := count), memory) in sent {
      assert Rebuilt(n, s.(count := count), memory) == Rebuilt(n, s, memory) by { FilledIgnoresCount(n, s, count, memory); }
    }
  }

  lemma FilledIgnoresCount(n: Node, s: Q.Summary, count: byte, memory: Register)
    requires s.op == 0 || IsReply(s.op)
    ensures Rebuilt(n, s.(count := count), memory) == Rebuilt(n, s, memory)
  {
    hide RegisterToPacket, HeaderFor;
  }

  /** Counting a repeat, and dropping a response that has had its six, leaves the other entries. */
  lemma RepeatRecalls(n: Node, now: uint32, sent: iset<Packet>)
    requires Inv(n) && Kept(n, sent) && n.responses.size > 0
    ensures var m := n.(responses := Q.Repeat(n.responses, now));
            Q.Shaped(m.responses) && QueueRecalls(m, sent) && m.responses.size <= n.responses.size
  {
    hide Recalls, Rebuilt, GenuineAir, GenuineSlots, Genuine, F.CacheInv, R.RingInv, RepliesOnly;
    var q := n.responses;
    var c, r := Q.Count(q, now), Q.Repeat(q, now);
    Q.RepeatKeepsInv(q, now);
    var m := n.(responses := r);
    forall k | 0 <= k < r.size ensures Recalls(m, Q.Live(r, k), sent) {
      var j := if r == c then k else k + 1;
      Q.CountChanges(q, now, j);
      assert Q.Live(r, k) == Q.Live(c, j);
      RecallsDepends(n, m, Q.Live(q, j), sent);
      RecallsIgnoresCount(m, Q.Live(q, j), Q.Bumped(Q.Live(q, j)).count, sent);
    }
  }

  lemma ResponseRepeatKeeps(n: Node, now: uint32, delay: uint16, stray: Register, sent: iset<Packet>)
    requires Inv(n) && Kept(n, sent)
    ensures Kept(UpdateResponseRepeats(n, now, delay, stray), sent)
  {
    hide Inv, Recalls, Rebuilt, Q.Repeat, Calm, Genuine;
    if MayRepeatResponse(n, now) {
      RingIsFair(n);
      Q.ChosenIsOldestLeast(n.responses);
      RepeatRecalls(n, now, sent);
      var c := Q.Chosen(n.responses);
      assert Recalls(n, Q.Live(n.responses, c), sent);
      RepeatsAreSound(n);
      var p := Rebuilt(n, Q.Live(n.responses, c), stray);
      RecallsThis(n, Q.Live(n.responses, c), stray, sent);
      var m := n.(responses := Q.Repeat(n.responses, now));
      var r := UpdateResponseRepeats(n, now, delay, stray);
      assert r.responses == m.responses && r.history.air == n.history.air + [Tx(Repeated, p)];
      SameEntriesRecall(m, r, sent);
    }
  }

  lemma RingIsFair(n: Node)
    requires Inv(n)
    ensures Q.QueueInv(n.responses)
  {
  }

  lemma RecallsThis(n: Node, s: Q.Summary, memory: Register, sent: iset<Packet>)
    requires Recalls(n, s, sent)
    ensures Rebuilt(n, s, memory) in sent
  {
  }

  lemma RequestRepeatKeeps(n: Node, now: uint32, delay: uint16, sent: iset<Packet>)
    requires Inv(n) && Kept(n, sent)
    ensures Kept(UpdateRequestRepeats(n, now, delay), sent)
  {
    hide Inv, Recalls, QueueRecalls, Calm, Genuine;
    RepeatsAreSound(n);
    SameEntriesRecall(n, UpdateRequestRepeats(n, now, delay), sent);
  }

  lemma RelayingIsQuiet(n: Node, now: uint32, delay: uint16)
    requires Inv(n)
    ensures Quiet(n, UpdateRepeats(n, now, delay))
  {
    hide Inv, R.SendOn, R.Outgoing, Genuine;
    if OnMesh(n.state) && n.relay.size > 0 && Elapsed(now, n.relay.lastSent) > n.randomDelay { OutgoingIsGenuine(n); }
  }

  lemma RepeatersKeep(n: Node, env: Env, sent: iset<Packet>)
    requires Inv(n) && Kept(n, sent)
    ensures Kept(UpdateRepeaters(n, env), sent)
  {
    hide Inv, Kept, Quiet, UpdateRepeats, UpdateResponseRepeats, UpdateRequestRepeats;
    var n1 := UpdateRepeats(n, env.relayTime, env.relayDelay);
    RelayingIsQuiet(n, env.relayTime, env.relayDelay);
    QuietKeeps(n, n1, sent);
    ResponseRepeatKeeps(n1, env.responseTime, env.responseDelay, env.stray, sent);
    var n2 := UpdateResponseRepeats(n1, env.responseTime, env.responseDelay, env.stray);
    RequestRepeatKeeps(n2, env.requestTime, env.requestDelay, sent);
  }

  // ---- runs ----

  /** The action leaves the registers as they are. */
  ghost predicate Undisturbed(n: Node, a: Action)
    requires Inv(n) && Allowed(n, a)
  {
    Act(n, a).registers == n.registers
  }

  /** What a broadcast may be repeated as: the value reply for its register, or, if it is not served, for
      what lies behind the registers. */
  ghost function Echoes(n: Node, a: Action): iset<Packet> {
    if a.DoBroadcast? then iset memory: Register :: B.Echo(n, a.register, memory) else iset{}
  }

  lemma BroadcastKeeps(n: Node, a: Action, sent: iset<Packet>)
    requires Inv(n) && |n.registers| <= 255 && Kept(n, sent) && a.DoBroadcast? && Echoes(n, a) <= sent
    ensures Kept(Act(n, a), sent)
  {
    hide Inv, Kept, RegisterToPacket, Encodable, SendResponse, Called, Recalls, QueueRecalls, HeaderFor;
    var b := Begin(n);
    BeginningKeeps(n, sent);
    if OnMesh(n.state) {
      var p := B.BroadcastOf(b, a.register);
      assert HeaderFor(b, PKT_REGISTER_VALUE) == HeaderFor(n, PKT_REGISTER_VALUE) by { SameHeader(n, b); }
      BufferIsQuiet(b, p);
      QuietKeeps(b, b.(packet := p), sent);
      if Encodable(a.register, true) {
        var m := b.(packet := p, request := b.request.(sequence := (b.request.sequence + 1) % 16));
        NumberIsQuiet(b, m);
        QuietKeeps(b, m, sent);
        EchoesDepend(n, b, a);
        SendingKeeps(b, m, a.register, a.now, sent);
      }
    }
  }

  lemma SameHeader(n: Node, b: Node)
    requires b.nodeId == n.nodeId && b.uniqueId == n.uniqueId && b.request == n.request
    ensures HeaderFor(b, PKT_REGISTER_VALUE) == HeaderFor(n, PKT_REGISTER_VALUE)
  {
  }

  lemma EchoesDepend(n: Node, b: Node, a: Action)
    requires B.SameServer(b, n) && b.request == n.request && a.DoBroadcast?
    ensures Echoes(b, a) == Echoes(n, a)
  {
    hide HeaderFor, RegisterToPacket, FindRegister;
    SameHeader(n, b);
    forall memory: Register ensures B.Echo(b, a.register, memory) == B.Echo(n, a.register, memory) {}
  }

  lemma NumberIsQuiet(n: Node, m: Node)
    requires Inv(n) && Kind(m.packet) == PKT_REGISTER_VALUE
    requires m == n.(packet := m.packet, request := n.request.(sequence := m.request.sequence))
    ensures Quiet(n, m) && Inv(m) && Genuine(Id(m), m.packet)
  {
    hide F.CacheInv, R.RingInv, Q.QueueInv;
  }

  /** A broadcast joins the ring of responses. */
  lemma SendingKeeps(b: Node, m: Node, reg: Register, now: uint32, sent: iset<Packet>)
    requires Inv(m) && |b.registers| <= 255 && Kept(m, sent) && OnMesh(m.state) && Encodable(reg, true)
    requires m.packet == B.BroadcastOf(b, reg) && B.SameServer(m, b) && Genuine(Id(m), m.packet)
    requires forall memory: Register :: B.Echo(b, reg, memory) in sent
    ensures Kept(SendResponse(m, now), sent)
  {
    hide Inv, Recalls, Calm, Q.Append, Rebuilt, RegisterToPacket, Encodable, B.Echo, B.BroadcastOf, Genuine;
    var p, q, r := m.packet, m.responses, SendResponse(m, now);
    assert r == Reply(m, p, now);
    RingIsFine(m);
    Q.AppendIsNewest(q, Kind(p), Sequence(p), SummaryData(p, m.registers), SummaryHasData(Kind(p)));
    RespondedQueue(m, p, now);
    assert B.SameServer(r, m);
    forall j | 0 <= j < r.responses.size ensures Recalls(r, Q.Live(r.responses, j), sent) {
      if j < q.size {
        RecallsDepends(m, r, Q.Live(q, j), sent);
      } else {
        EchoIsRecalled(b, r, reg, Q.Live(q, q.size).data, sent);
      }
    }
    assert forall j | 0 <= j < |m.history.air| :: r.history.air[j] == m.history.air[j];
  }

  lemma EchoIsRecalled(b: Node, r: Node, reg: Register, leftover: byte, sent: iset<Packet>)
    requires |b.registers| <= 255 && B.SameServer(r, b) && Encodable(reg, true)
    requires forall memory: Register :: B.Echo(b, reg, memory) in sent
    ensures Recalls(r, B.SummaryOf(b, B.BroadcastOf(b, reg), 0, leftover), sent)
  {
    hide Rebuilt, B.Echo, B.BroadcastOf, Encodable;
    var s := B.SummaryOf(b, B.BroadcastOf(b, reg), 0, leftover);
    forall memory: Register ensures Rebuilt(r, s, memory) in sent {
      B.BroadcastRebuilt(b, r, reg, 0, leftover, memory);
    }
  }

  lemma UpdateKeeps(n: Node, env: Env, sent: iset<Packet>)
    requires Inv(n) && |n.registers| <= 255 && WellFormed(n.registers) && Kept(n, sent)
    requires Covers(sent, Update(n, env).history.air) && Update(n, env).registers == n.registers
    ensures Kept(Update(n, env), sent)
  {
    hide Inv, Kept, Covers, WellFormed, HandleRx, UpdateTimers, UpdateRepeaters;
    var n1 := HandleRx(n, env);
    var n2 := UpdateTimers(n1, env);
    S.AfterRxKeepsRegisters(n1, env);
    CoversPart(sent, n2.history.air, Update(n, env).history.air);
    CoversPart(sent, n1.history.air, n2.history.air);
    ReceivingKeeps(n, env, sent);
    TimersKeep(n1, env, sent);
    RepeatersKeep(n2, env, sent);
  }

  /** A call begins with nothing sent in it. */
  lemma BeginningKeeps(n: Node, sent: iset<Packet>)
    requires Inv(n) && Kept(n, sent)
    ensures Kept(Begin(n), sent)
  {
    hide Inv, Recalls, QueueRecalls;
    SameEntriesRecall(n, Begin(n), sent);
  }

  lemma StartingKeeps(n: Node, state: State, target: byte, uniqueId: uint16, user: Callback, sent: iset<Packet>)
    requires Inv(n) && n.state == Idle && OnMesh(state) && state != Idle && Kept(n, sent)
    ensures Kept(Start(n, state, target, uniqueId, user), sent)
  {
    hide Inv, Kept;
    StartIsQuiet(n, state, target, uniqueId, user);
    QuietKeeps(n, Start(n, state, target, uniqueId, user), sent);
  }

  lemma StartIsQuiet(n: Node, state: State, target: byte, uniqueId: uint16, user: Callback)
    requires Inv(n) && n.state == Idle && OnMesh(state) && state != Idle
    ensures Quiet(n, Start(n, state, target, uniqueId, user))
  {
    hide Inv;
  }

  lemma AskingKeeps(n: Node, p: Packet, now: uint32, sent: iset<Packet>)
    requires Inv(n) && Kept(n, sent) && Kind(p) != PKT_JOIN && Kind(p) != PKT_CONFLICT_NAME && !IsReply(Kind(p))
    requires Covers(sent, Ask(n, p, now).history.air)
    ensures Kept(Ask(n, p, now), sent)
  {
    hide Inv, Kept, Covers, Genuine, SendRequest;
    var m := n.(packet := p);
    PacketIsFree(n, p);
    OtherIsGenuine(Id(n), p);
    BufferIsQuiet(n, p);
    QuietKeeps(n, m, sent);
    RequestKeeps(m, now, sent);
  }

  lemma DirectoryCallsKeep(n: Node, a: Action, sent: iset<Packet>)
    requires Inv(n) && Kept(n, sent) && n.state == Idle
    requires a.DoPing? || a.DoGetNumRegisters? || a.DoGetRegisterName?
    requires Covers(sent, Act(n, a).history.air)
    ensures Kept(Act(n, a), sent)
  {
    hide Inv, Kept, Covers, Start, Ask, Header, SendsRequest, Called, Calm;
    var b := Begin(n);
    BeginningKeeps(n, sent);
    match a {
      case DoPing(user, now) =>
        StartingKeeps(b, Pinging, 0, 0, user, sent);
        var n0 := Start(b, Pinging, 0, 0, user);
        var n1 := n0.(presence := P.Nobody());
        FieldIsQuiet(n0, n1);
        QuietKeeps(n0, n1, sent);
        ScratchIsFree(n0, n1);
        AskingKeeps(n1, HeaderFor(n1, PKT_PING), now, sent);
      case DoGetNumRegisters(target, uniqueId, user, now) =>
        StartingKeeps(b, GettingNumRegisters, target, uniqueId, user, sent);
        var n1 := Start(b, GettingNumRegisters, target, uniqueId, user);
        AskingKeeps(n1, HeaderFor(n1, PKT_GET_NUM_REGISTERS)[TARGET_AT := target], now, sent);
      case DoGetRegisterName(target, index, uniqueId, user, now) =>
        StartingKeeps(b, GettingRegisterName, target, uniqueId, user, sent);
        var n0 := Start(b, GettingRegisterName, target, uniqueId, user);
        var n1 := n0.(request := n0.request.(targetIndex := index));
        FieldIsQuiet(n0, n1);
        QuietKeeps(n0, n1, sent);
        ScratchIsFree(n0, n1);
        AskingKeeps(n1, HeaderFor(n1, PKT_GET_REGISTER_NAME)[TARGET_AT := target][REG_INDEX_AT := index], now, sent);
    }
  }

  lemma FieldIsQuiet(n: Node, r: Node)
    requires r == n.(presence := r.presence, request := r.request, client := r.client)
    requires r.request.pending == n.request.pending
    ensures Quiet(n, r)
  {
  }

  lemma ScratchIsFree(n: Node, r: Node)
    requires Inv(n) && r == n.(presence := r.presence, request := n.request.(targetIndex := r.request.targetIndex))
    requires r.presence == n.presence || |r.presence| == P.TABLE_BYTES
    ensures Inv(r)
  {
    hide F.CacheInv, R.RingInv, Q.QueueInv, Genuine;
  }

  lemma RegisterCallsKeep(n: Node, a: Action, sent: iset<Packet>)
    requires Inv(n) && Kept(n, sent) && n.state == Idle && (a.DoGetRegister? || a.DoSetRegister?)
    requires Covers(sent, Act(n, a).history.air)
    ensures Kept(Act(n, a), sent)
  {
    hide Inv, Kept, Covers, Start, Ask, Header, SendsRequest, Called, Calm, RegisterToPacket, Encodable, CopyInto;
    var b := Begin(n);
    BeginningKeeps(n, sent);
    var state := if a.DoGetRegister? then GettingRegister else SettingRegister;
    StartingKeeps(b, state, 0, 0, a.user, sent);
    var n1 := Start(b, state, 0, 0, a.user);
    var kind := if a.DoGetRegister? then PKT_GET_REGISTER else PKT_SET_REGISTER;
    var p := RegisterToPacket(HeaderFor(n1, kind), a.register, a.DoSetRegister?);
    var n2 := if a.DoGetRegister? then n1.(client := n1.client.(register := CopyInto(n1.client.register, a.register))) else n1;
    if Encodable(a.register, a.DoSetRegister?) {
      FieldIsQuiet(n1, n2);
      QuietKeeps(n1, n2, sent);
      CacheIsFree(n1, n2);
      AskingKeeps(n2, p, a.now, sent);
    } else {
      BufferIsQuiet(n1, p);
      QuietKeeps(n1, n1.(packet := p), sent);
    }
  }

  lemma CacheIsFree(n: Node, m: Node)
    requires Inv(n) && m == n.(client := m.client) && m.client == n.client.(register := m.client.register)
    ensures Inv(m)
  {
    hide Inv;
    ClientIsFree(n, m.client);
  }

  lemma OtherCallsKeep(n: Node, a: Action, sent: iset<Packet>)
    requires Inv(n) && Kept(n, sent) && Allowed(n, a) && (a.DoListen? || a.DoJoin? || (!a.DoUpdate? && Act(n, a) == Begin(n)))
    requires Covers(sent, Act(n, a).history.air)
    ensures Kept(Act(n, a), sent)
  {
    hide Inv, Kept, Covers, Join, Called;
    var b := Begin(n);
    BeginningKeeps(n, sent);
    if a.DoListen? {
      assert Act(n, a) == b.(client := Act(n, a).client);
      FieldIsQuiet(b, Act(n, a));
      QuietKeeps(b, Act(n, a), sent);
    } else if a.DoJoin? {
      var m := b.(history := b.history.(started := b.history.started + 1));
      CountIsQuiet(b, m);
      QuietKeeps(b, m, sent);
      CountKeepsInv(b);
      JoiningKeeps(m, a.id, a.user, a.now, sent);
    }
  }

  lemma CountIsQuiet(n: Node, r: Node)
    requires r == n.(history := n.history.(started := r.history.started))
    ensures Quiet(n, r)
  {
  }

  lemma CountKeepsInv(n: Node)
    requires Inv(n)
    ensures Inv(n.(history := n.history.(started := n.history.started + 1)))
  {
    hide F.CacheInv, R.RingInv, Q.QueueInv, Genuine;
  }

  lemma CallKeeps(n: Node, a: Action, sent: iset<Packet>)
    requires Inv(n) && Kept(n, sent) && Allowed(n, a) && !a.DoUpdate? && !a.DoBroadcast?
    requires Covers(sent, Act(n, a).history.air)
    ensures Kept(Act(n, a), sent)
  {
    hide Inv, Kept, Covers, Start, Ask, Called, RegisterToPacket, Encodable;
    if a.DoListen? || a.DoJoin? || n.state != Idle {
      OtherCallsKeep(n, a, sent);
    } else if a.DoGetRegister? || a.DoSetRegister? {
      RegisterCallsKeep(n, a, sent);
    } else {
      DirectoryCallsKeep(n, a, sent);
    }
  }

  lemma ActKeeps(n: Node, a: Action, sent: iset<Packet>)
    requires Inv(n) && Allowed(n, a) && |n.registers| <= 255 && WellFormed(n.registers) && Kept(n, sent)
    requires Undisturbed(n, a) && Covers(sent, Act(n, a).history.air) && Echoes(n, a) <= sent
    ensures Kept(Act(n, a), sent)
  {
    hide Inv, Kept, Covers, WellFormed, Update, Echoes;
    if a.DoUpdate? {
      BeginningKeeps(n, sent);
      UpdateKeeps(Begin(n), a.env, sent);
    } else if a.DoBroadcast? {
      BroadcastKeeps(n, a, sent);
    } else {
      CallKeeps(n, a, sent);
    }
  }

  /** All packets the node originated. */
  function Originals(air: seq<Tx>): iset<Packet> { iset k | 0 <= k < |air| && air[k].origin == Originated :: air[k].packet }

  predicate WholeReplies(air: seq<Tx>) {
    forall k | 0 <= k < |air| && air[k].origin == Originated :: IsReply(Kind(air[k].packet)) ==> Whole(air[k].packet)
  }

  /** The registers stay as they are, and every reply fits its summary. */
  ghost predicate FitRun(n: Node, actions: seq<Action>)
    requires Inv(n) && AllowedRun(n, actions)
    decreases |actions|
  {
    actions == [] ||
    (Undisturbed(n, actions[0]) && WholeReplies(Act(n, actions[0]).history.air) &&
     FitRun(Act(n, actions[0]), actions[1..]))
  }

  /** Whatever is repeated in the run was sent before, in the run or as one of `sent`, or is the value reply
      that stands for a broadcast made before. */
  ghost predicate Faithful(n: Node, actions: seq<Action>, sent: iset<Packet>)
    requires Inv(n) && AllowedRun(n, actions)
    decreases |actions|
  {
    actions == [] ||
    var more := Sayable(n, actions[0], sent);
    RepeatsSent(more, Act(n, actions[0]).history.air) && Faithful(Act(n, actions[0]), actions[1..], more)
  }

  /** What may be repeated after this action: what was before, what the action sends, and its echoes. */
  ghost function Sayable(n: Node, a: Action, sent: iset<Packet>): iset<Packet>
    requires Inv(n) && Allowed(n, a)
  {
    sent + Originals(Act(n, a).history.air) + Echoes(n, a)
  }

  lemma KeptGrows(n: Node, sent: iset<Packet>, more: iset<Packet>)
    requires Kept(n, sent) && sent <= more
    ensures Kept(n, more)
  {
    hide Rebuilt;
    forall k | 0 <= k < n.responses.size ensures Recalls(n, Q.Live(n.responses, k), more) {
      assert Recalls(n, Q.Live(n.responses, k), sent);
    }
  }

  lemma OriginalsCover(air: seq<Tx>, sent: iset<Packet>)
    requires WholeReplies(air) && Originals(air) <= sent
    ensures Covers(sent, air)
  {
    hide Whole;
  }

  /** Repeating is faithful: in every run in which the registers do not change and every reply fits its
      summary, each packet repeated, reply or request, equals byte for byte one the node sent before (or the
      zeroed request buffer, if it had sent no request); or it is the value reply that is repeated for a
      broadcast, which `Rebuild.BroadcastRebuilt` compares with the broadcast. */
  lemma {:induction false} RepeatingIsFaithful(n: Node, actions: seq<Action>, sent: iset<Packet>)
    requires Inv(n) && AllowedRun(n, actions) && WellFormed(n.registers) && Kept(n, sent) && FitRun(n, actions)
    ensures Faithful(n, actions, sent)
    decreases |actions|
  {
    hide Inv, Kept, Covers, WellFormed, Act, Allowed, WholeReplies, Originals, RepeatsSent, Echoes;
    if actions != [] {
      var r := Act(n, actions[0]);
      var more := Sayable(n, actions[0], sent);
      KeptGrows(n, sent, more);
      OriginalsCover(r.history.air, more);
      FewRegisters(n);
      ActKeeps(n, actions[0], more);
      KeptRepeats(r, more);
      RepeatingIsFaithful(r, actions[1..], more);
    }
  }

  lemma KeptRepeats(n: Node, sent: iset<Packet>)
    requires Kept(n, sent)
    ensures RepeatsSent(sent, n.history.air)
  {
  }

  /** So it is for every node from its initialization on. */
  lemma FaithfulFromTheStart(uniqueId: uint16, retransmitDelay: uint16, randomDelay: uint16, registers: seq<Register>,
                             actions: seq<Action>)
    requires |registers| <= 255 && WellFormed(registers)
    requires (InitIsSound(uniqueId, retransmitDelay, randomDelay, registers);
              var n := Init(uniqueId, retransmitDelay, randomDelay, registers);
              AllowedRun(n, actions) && FitRun(n, actions))
    ensures Faithful(Init(uniqueId, retransmitDelay, randomDelay, registers), actions, iset{})
  {
    hide WellFormed, FitRun, AllowedRun, Faithful, Rebuilt;
    InitIsSound(uniqueId, retransmitDelay, randomDelay, registers);
    RepeatingIsFaithful(Init(uniqueId, retransmitDelay, randomDelay, registers), actions, iset{});
  }
}
