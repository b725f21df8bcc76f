/** Value broadcasts from end to end: exactly which packets a listening node takes, what it then holds, and that it
    takes no packet twice while its filter remembers it. */
module Broadcasts {
  import opened Bytes
  import opened Packets
  import opened Registers
  import opened Model
  import opened Operations
  import opened Joining
  import B = Rebuild
  import F = Filter
  import Q = Responses
  import R = Relay
  import S = Server
  import T = Traffic
  import U = Queries

  // ---- what is taken ----

  /** The comparison with the listener's register, byte for byte: the names agree, the lengths of the values agree,
      and the bytes from the length byte on agree with the register's first bytes, which are its name. */
  predicate LooksKnown(p: Packet, r: Register)
    requires Decodable(p, true)
  {
    var n, at := p[DATA_AT], NAME_AT + p[DATA_AT];
    n == r.nameLen && p[NAME_AT..at] == r.data[..n] && p[at] == r.dataLen && p[at..at + p[at]] == r.data[..p[at]]
  }

  /** The packet that the last handler finds in the buffer, and the filter it finds: the packet received, or the
      node's own value, if it has just answered a GET. */
  function LastSeen(n: Node, env: Env): Option<(Packet, F.Cache)>
    requires Inv(n)
  {
    hide F.Tracks, F.AtMostOnce, R.RingInv, Q.QueueInv;
    if !OnMesh(n.state) || !env.rx.Received? || T.IsDuplicate(n, env.rx) then None
    else
      var p := env.rx.packet;
      var heard := F.Hear(n.filter, Sequence(p), UniqueId(p));
      match FindRegister(p, n.registers, 0)
      case None => Some((p, heard))
      case Some(i) =>
        if S.Reaches(n, p, PKT_GET_REGISTER) then
          FilterIsSized(n, p);
          Some((S.ValueReply(n, i, env.getReply), F.Mark(heard, HeaderOf(p))))
        else Some((p, heard))
  }

  lemma FilterIsSized(n: Node, p: Packet)
    requires Inv(n)
    ensures var heard := F.Hear(n.filter, Sequence(p), UniqueId(p));
            heard.next < |heard.entries|
  {
    hide F.AtMostOnce, R.RingInv, Q.QueueInv, F.SlotRemembers;
  }

  /** The node takes this packet as a new broadcast: it listens, the packet is a value under node id 0, not handled
      before, well-sized, and it does not look known. */
  predicate IsNew(n: Node, p: Packet, c: F.Cache) {
    n.client.listening && Kind(p) == PKT_REGISTER_VALUE && Sender(p) == 0 && !F.Seen(c, HeaderOf(p)) &&
    Decodable(p, true) && !LooksKnown(p, n.client.broadcast)
  }

  predicate Takes(n: Node, env: Env)
    requires Inv(n)
  {
    var seen := LastSeen(n, env);
    seen.Some? && IsNew(n, seen.value.0, seen.value.1)
  }

  /** A broadcast has been read into the listener's register, reported, and marked; or nothing of it has changed. */
  ghost predicate Took(n: Node, r: Node, taken: bool, p: Packet) {
    r.client.listening == n.client.listening &&
    r.history.broadcasts == n.history.broadcasts + (if taken then 1 else 0) &&
    if taken then
      Decodable(p, true) && Fits(r.client.broadcast) && Name(r.client.broadcast) == PacketName(p) &&
      Value(r.client.broadcast) == PacketValue(p) && F.Seen(r.filter, HeaderOf(p))
    else r.client.broadcast == n.client.broadcast
  }

  // ---- the handlers ----

  /** The comparison as the source makes it never gets to the memory behind the buffers, for a well-sized value. */
  lemma ComparisonIs(p: Packet, r: Register, behind: Behind)
    requires Decodable(p, true)
    ensures NameAndValueMatch(p, r, behind) <==> LooksKnown(p, r)
  {
    var at := NAME_AT + p[DATA_AT];
    if r.nameLen == p[DATA_AT] && r.dataLen == p[at] {
      assert (p + behind)[at..at + r.dataLen] == p[at..at + r.dataLen];
    }
  }

  /** The last handler, exactly. */
  lemma HandlerTakes(n: Node, behind: Behind)
    requires Inv(n)
    ensures Took(n, HandleBroadcast(n, behind), OnMesh(n.state) && IsNew(n, n.packet, n.filter), n.packet)
  {
    hide Inv, NameAndValueMatch, LooksKnown, PacketToRegister, F.Seen, F.Mark, PacketName, PacketValue;
    if Decodable(n.packet, true) {
      ComparisonIs(n.packet, n.client.broadcast, behind);
      DecodedFields(n.packet, n.client.broadcast);
    }
    if OnMesh(n.state) && IsNew(n, n.packet, n.filter) { MarkIsSeen(n); }
  }

  lemma MarkIsSeen(n: Node)
    requires Inv(n)
    ensures n.filter.next < |n.filter.entries| && F.Seen(F.Mark(n.filter, HeaderOf(n.packet)), HeaderOf(n.packet))
  {
    hide F.AtMostOnce, R.RingInv, Q.QueueInv, F.SlotRemembers;
    var c := F.Mark(n.filter, HeaderOf(n.packet));
    assert c.entries[n.filter.next] == HeaderOf(n.packet);
  }

  /** A step that leaves what the last handler reads, but for the packet and the filter. */
  ghost predicate Leaves(n: Node, r: Node) {
    r.client.listening == n.client.listening && r.client.broadcast == n.client.broadcast &&
    r.history.broadcasts == n.history.broadcasts && OnMesh(r.state) == OnMesh(n.state)
  }

  lemma PresenceLeaves(n: Node, now: uint32)
    requires Inv(n)
    ensures var r := HandlePong(HandlePing(n, now));
            Leaves(n, r) && (r.packet == n.packet || Kind(r.packet) == PKT_PONG)
  {
    hide Inv, F.Seen, F.Mark;
  }

  lemma NumbersLeave(n: Node, now: uint32)
    requires Inv(n)
    ensures var r := HandleNumRegisters(HandleGetNumRegisters(n, now));
            Leaves(n, r) && (r.packet == n.packet || Kind(r.packet) == PKT_NUM_REGISTERS)
  {
    hide Inv, F.Seen, F.Mark;
  }

  lemma NamesLeave(n: Node, strayByte: byte, now: uint32)
    requires Inv(n)
    ensures var r := HandleRegisterName(HandleGetRegisterName(n, now), strayByte);
            Leaves(n, r) && (r.packet == n.packet || Kind(r.packet) == PKT_REGISTER_NAME)
  {
    hide Inv, F.Seen, F.Mark, NameReply, PacketToRegister, RegisterIndex;
  }

  lemma DirectoryLeaves(n: Node, env: Env)
    requires Inv(n)
    ensures var r := ServeDirectory(n, env);
            Leaves(n, r) && (r.packet == n.packet || Kind(r.packet) in {PKT_PONG, PKT_NUM_REGISTERS, PKT_REGISTER_NAME})
  {
    hide Inv, HandlePing, HandlePong, HandleGetNumRegisters, HandleNumRegisters, HandleGetRegisterName, HandleRegisterName;
    PresenceLeaves(n, env.rxTime);
    var n1 := HandlePong(HandlePing(n, env.rxTime));
    NumbersLeave(n1, env.rxTime);
    NamesLeave(HandleNumRegisters(HandleGetNumRegisters(n1, env.rxTime)), env.strayByte, env.rxTime);
  }

  /** Answering a GET leaves the node's own value in the buffer, and the GET marked. */
  lemma GetLeaves(n: Node, env: Env)
    requires Inv(n)
    ensures var r, f := HandleGetRegister(n, env.getReply, env.rxTime), FindRegister(n.packet, n.registers, 0);
            Leaves(n, r) && n.filter.next < |n.filter.entries| &&
            if OnMesh(n.state) && Passes(n, PKT_GET_REGISTER) && f.Some? then
              r.packet == S.ValueReply(n, f.value, env.getReply) && r.filter == F.Mark(n.filter, HeaderOf(n.packet))
            else r == n
  {
    hide Inv, F.Seen, F.Mark, FindRegister, RegisterToPacket;
    MarkIsSeen(n);
  }

  lemma ValueLeaves(n: Node)
    requires Inv(n)
    ensures var r := HandleRegisterValue(n);
            Leaves(n, r) && r.packet == n.packet && r.filter == n.filter
  {
    hide Inv, PacketToRegister, NameMatches;
  }

  lemma SetLeaves(n: Node, env: Env)
    requires Inv(n)
    ensures var r := HandleSetRegister(n, env.setReply, env.rxTime);
            Leaves(n, r) && (r == n || (Kind(n.packet) == PKT_SET_REGISTER && Kind(r.packet) == PKT_SET_REGISTER_ACK))
  {
    hide Inv, F.Seen, F.Mark, FindRegister, SetRequested, SetAck;
  }

  lemma AckLeaves(n: Node)
    requires Inv(n)
    ensures var r := HandleSetRegisterAck(n);
            Leaves(n, r) && r.packet == n.packet && r.filter == n.filter
  {
    hide Inv, StrNCpy, Patch;
  }

  /** All handlers but the last: what it finds in the buffer. */
  function BeforeLast(n: Node, env: Env): (r: Node)
    requires Inv(n)
    ensures Inv(r)
  {
    hide Inv, ServeDirectory, HandleGetRegister, HandleRegisterValue, HandleSetRegister, HandleSetRegisterAck;
    var g := HandleRegisterValue(HandleGetRegister(ServeDirectory(n, env), env.getReply, env.rxTime));
    HandleSetRegisterAck(HandleSetRegister(g, env.setReply, env.rxTime))
  }

  lemma LastIsBroadcast(n: Node, env: Env)
    requires Inv(n)
    ensures Serve(n, env) == HandleBroadcast(BeforeLast(n, env), env.behind)
  {
    hide Inv, ServeDirectory, HandleGetRegister, HandleRegisterValue, HandleSetRegister, HandleSetRegisterAck, HandleBroadcast;
  }

  lemma OthersLeave(n: Node, env: Env)
    requires Inv(n)
    ensures var r, f := BeforeLast(n, env), FindRegister(n.packet, n.registers, 0);
            Leaves(n, r) && n.filter.next < |n.filter.entries| &&
            if OnMesh(n.state) && Passes(n, PKT_GET_REGISTER) && f.Some? then
              r.packet == S.ValueReply(n, f.value, env.getReply) && r.filter == F.Mark(n.filter, HeaderOf(n.packet))
            else if Kind(n.packet) == PKT_REGISTER_VALUE then r.packet == n.packet && r.filter == n.filter
            else Kind(r.packet) != PKT_REGISTER_VALUE
  {
    hide Inv, ServeDirectory, HandleGetRegister, HandleRegisterValue, HandleSetRegister, HandleSetRegisterAck, F.Seen, F.Mark,
         FindRegister, S.ValueReply;
    var d := ServeDirectory(n, env);
    DirectoryLeaves(n, env);
    if S.IsRegisterRequest(Kind(n.packet)) || Kind(n.packet) == PKT_REGISTER_VALUE { S.DirectoryPassesOn(n, env); }
    GetLeaves(d, env);
    GetLeaves(n, env);
    var g := HandleGetRegister(d, env.getReply, env.rxTime);
    ValueLeaves(g);
    SetLeaves(HandleRegisterValue(g), env);
    AckLeaves(HandleSetRegister(HandleRegisterValue(g), env.setReply, env.rxTime));
    if OnMesh(n.state) && Passes(n, PKT_GET_REGISTER) && FindRegister(n.packet, n.registers, 0).Some? {
      ReplyIsValue(n, FindRegister(n.packet, n.registers, 0).value, env.getReply);
    }
  }

  lemma ReplyIsValue(n: Node, i: nat, getReply: Register)
    requires i < |n.registers|
    ensures Kind(S.ValueReply(n, i, getReply)) == PKT_REGISTER_VALUE
  {
    hide RegisterToPacket;
  }

  /** As `LastSeen`, for the node as it serves. */
  function SeenServing(n: Node, env: Env): (Packet, F.Cache)
    requires Inv(n)
  {
    hide Inv;
    MarkIsSeen(n);
    match FindRegister(n.packet, n.registers, 0)
    case None => (n.packet, n.filter)
    case Some(i) =>
      if OnMesh(n.state) && Passes(n, PKT_GET_REGISTER) then
        (S.ValueReply(n, i, env.getReply), F.Mark(n.filter, HeaderOf(n.packet)))
      else (n.packet, n.filter)
  }

  lemma ServingTakes(n: Node, env: Env)
    requires Inv(n)
    ensures var seen := SeenServing(n, env);
            Took(n, Serve(n, env), OnMesh(n.state) && IsNew(n, seen.0, seen.1), seen.0)
  {
    hide Inv, Serve, BeforeLast, HandleBroadcast, FindRegister, F.Seen, F.Mark, S.ValueReply, LooksKnown, PacketName, PacketValue,
         Decodable, Name, Value, Fits;
    OthersLeave(n, env);
    LastIsBroadcast(n, env);
    HandlerTakes(BeforeLast(n, env), env.behind);
  }

  lemma SameSeen(n: Node, m: Node, env: Env)
    requires Inv(n) && Inv(m) && OnMesh(n.state) && env.rx.Received? && !T.IsDuplicate(n, env.rx)
    requires m.packet == env.rx.packet && m.state == n.state && m.nodeId == n.nodeId && m.uniqueId == n.uniqueId
    requires m.registers == n.registers && m.request == n.request
    requires m.filter == F.Hear(n.filter, Sequence(m.packet), UniqueId(m.packet))
    ensures LastSeen(n, env) == Some(SeenServing(m, env))
  {
    hide Inv, F.Hear, F.Seen, F.Mark, FindRegister, RegisterToPacket;
    FilterIsSized(n, env.rx.packet);
  }

  /** The receive phase takes a broadcast exactly when `Takes` says. */
  lemma ReceivingTakes(n: Node, env: Env)
    requires Inv(n)
    ensures Took(n, HandleRx(n, env), Takes(n, env), if LastSeen(n, env).Some? then LastSeen(n, env).value.0 else n.packet)
  {
    hide Inv, Receive, Regard, Serve, SendConflict, LastSeen, SeenServing, Took, IsNew;
    match env.rx
    case NoData => NothingSeen(n, env); NothingTaken(n, n);
    case Corrupt(bytes) => NothingSeen(n, env); NothingTaken(n, n.(packet := bytes));
    case Received(p) =>
      var n1 := Receive(n, p, env.rxTime);
      T.DuplicateIsSeen(n, env);
      if SeesDuplicateId(n1) {
        NothingSeen(n, env);
        DefendingTakesNothing(n1, env.rxTime);
        NothingTaken(n, SendConflict(n1, env.rxTime));
      } else {
        var n2 := Regard(n1, env.rxTime);
        S.HandlersSee(n, p, env.rxTime);
        if OnMesh(n.state) {
          S.RegardKeepsAsking(n1, env.rxTime);
          SameSeen(n, n2, env);
          ServingTakes(n2, env);
          SameTaking(n, n2, env);
        } else {
          NothingSeen(n, env);
          RegardTakesNothing(n1, env.rxTime);
          OffMeshIsDeaf(n2, env);
          NothingTaken(n, n2);
        }
      }
  }

  lemma NothingSeen(n: Node, env: Env)
    requires Inv(n) && (!OnMesh(n.state) || !env.rx.Received? || T.IsDuplicate(n, env.rx))
    ensures LastSeen(n, env) == None
  {
    hide Inv;
  }

  lemma NothingTaken(n: Node, r: Node)
    requires Leaves(n, r)
    ensures Took(n, r, false, n.packet)
  {
  }

  lemma DefendingTakesNothing(n: Node, now: uint32)
    requires Inv(n) && OnMesh(n.state)
    ensures Leaves(n, SendConflict(n, now))
  {
    hide Inv;
  }

  lemma RegardTakesNothing(n: Node, now: uint32)
    requires Inv(n) && Genuine(Id(n), n.packet)
    ensures Leaves(n, Regard(n, now))
  {
    hide Inv, F.Hear, F.Mark, Genuine;
  }

  lemma SameTaking(n: Node, m: Node, env: Env)
    requires Inv(n) && Inv(m) && OnMesh(m.state) && m.client == n.client && m.history.broadcasts == n.history.broadcasts
    requires LastSeen(n, env) == Some(SeenServing(m, env))
    requires Took(m, Serve(m, env), OnMesh(m.state) && IsNew(m, SeenServing(m, env).0, SeenServing(m, env).1),
                  SeenServing(m, env).0)
    ensures Took(n, Serve(m, env), Takes(n, env), LastSeen(n, env).value.0)
  {
    hide Inv, Serve, SeenServing, LastSeen, LooksKnown, Decodable, F.Seen;
  }

  lemma AfterRxTakesNothing(n: Node, env: Env)
    requires Inv(n)
    ensures var r := UpdateAfterRx(n, env);
            r.client.listening == n.client.listening && r.client.broadcast == n.client.broadcast &&
            r.history.broadcasts == n.history.broadcasts && r.filter == n.filter
  {
    hide Inv, UpdateTimers, UpdateRepeaters, T.RingAfter, T.QueueAfter, T.RepeatsRequest;
    TimersTakeNothing(n, env);
    T.RepeatersState(UpdateTimers(n, env), env);
  }

  lemma TimersTakeNothing(n: Node, env: Env)
    requires Inv(n)
    ensures var r := UpdateTimers(n, env);
            r.client.listening == n.client.listening && r.client.broadcast == n.client.broadcast &&
            r.history.broadcasts == n.history.broadcasts && r.filter == n.filter
  {
    hide Inv;
  }

  /** One update of any node, exactly: it takes a new broadcast, reads its name and value into the listener's
      register, reports it once and marks it; or it takes and reports none, and the register stays. */
  lemma UpdateTakes(n: Node, env: Env)
    requires Inv(n)
    ensures Took(n, Update(n, env), Takes(n, env), if LastSeen(n, env).Some? then LastSeen(n, env).value.0 else n.packet)
  {
    hide Inv, HandleRx, UpdateAfterRx, LastSeen, IsNew, Decodable, Name, Value, Fits, PacketName, PacketValue, F.Seen;
    ReceivingTakes(n, env);
    AfterRxTakesNothing(HandleRx(n, env), env);
  }

  lemma ValueIsSeen(n: Node, env: Env)
    requires Inv(n) && env.rx.Received? && Kind(env.rx.packet) == PKT_REGISTER_VALUE
    requires OnMesh(n.state) && !T.IsDuplicate(n, env.rx)
    ensures var p := env.rx.packet;
            LastSeen(n, env) == Some((p, F.Hear(n.filter, Sequence(p), UniqueId(p))))
  {
    hide Inv, F.Hear, F.Seen, FindRegister;
  }

  /** A fresh broadcast that reaches a listening node is read, with its name and value, and reported. */
  lemma BroadcastIsTaken(n: Node, env: Env)
    requires Inv(n) && n.client.listening && env.rx.Received? && S.Reaches(n, env.rx.packet, PKT_REGISTER_VALUE)
    requires Sender(env.rx.packet) == 0 && Decodable(env.rx.packet, true)
    requires !LooksKnown(env.rx.packet, n.client.broadcast)
    ensures Took(n, Update(n, env), true, env.rx.packet)
  {
    hide Inv, Update, LooksKnown, LastSeen, Decodable, Took, F.Hear, F.Seen;
    ValueIsSeen(n, env);
    UpdateTakes(n, env);
  }

  /** A value under another name is always new to the comparison. */
  lemma OtherNameIsNew(p: Packet, r: Register)
    requires Decodable(p, true) && PacketName(p) != Name(r)
    ensures !LooksKnown(p, r)
  {
  }

  /** But so is the register's own value, unless the first bytes of the register, which are its name, happen to be
      the length and the first bytes of the value: the comparison is made one byte early. */
  lemma SameValueLooksNew(p: Packet, r: Register)
    requires Decodable(p, true) && Fits(r) && PacketName(p) == Name(r) && PacketValue(p) == Value(r)
    ensures LooksKnown(p, r) <==> r.dataLen == 0 || r.data[..r.dataLen] == [r.dataLen] + Value(r)[..r.dataLen - 1]
  {
    var at := NAME_AT + p[DATA_AT];
    assert |PacketName(p)| == |Name(r)| && |PacketValue(p)| == |Value(r)|;
    if r.dataLen > 0 { assert p[at..at + r.dataLen] == [p[at]] + PacketValue(p)[..r.dataLen - 1]; }
  }

  // ---- once ----

  /** A packet whose header the filter remembers is not taken, whatever its hop count. */
  lemma SeenIsNotTaken(n: Node, env: Env)
    requires Inv(n) && env.rx.Received? && Kind(env.rx.packet) == PKT_REGISTER_VALUE
    requires F.Remembers(n.filter.history, HeaderOf(env.rx.packet))
    ensures Took(n, Update(n, env), false, env.rx.packet)
  {
    hide Inv, Update, LooksKnown, LastSeen, Decodable, F.Remembers, F.Expired;
    var p := env.rx.packet;
    UpdateTakes(n, env);
    FilterTracks(n);
    F.SeenIsRemembered(n.filter, HeaderOf(p));
    OwnNumberStays(n.filter, Sequence(p), UniqueId(p), HeaderOf(p));
    if OnMesh(n.state) && !T.IsDuplicate(n, env.rx) {
      ValueIsSeen(n, env);
    } else {
      NothingSeen(n, env);
    }
  }

  lemma FilterTracks(n: Node)
    requires Inv(n)
    ensures F.Tracks(n.filter)
  {
    hide F.Tracks, F.AtMostOnce, R.RingInv, Q.QueueInv, GenuineAir, GenuineSlots, RepliesOnly;
  }

  /** A packet does not make the filter forget its own header. */
  lemma OwnNumberStays(c: F.Cache, sequence: nibble, uniqueId: uint16, header: F.Header)
    requires F.Seen(c, header) && header.sequence == sequence
    ensures F.Seen(F.Hear(c, sequence, uniqueId), header)
  {
    var j :| 0 <= j < |c.entries| && c.entries[j] == header;
    assert F.Hear(c, sequence, uniqueId).entries[j] == header;
  }

  /** Taken once: while the filter remembers it, no copy of a broadcast is taken again, whatever its hop count. */
  lemma SecondCopyIsIgnored(n: Node, env: Env, between: seq<Action>, back: Env)
    requires Inv(n) && env.rx.Received? && Takes(n, env) && Kind(env.rx.packet) == PKT_REGISTER_VALUE
    requires AllowedRun(Act(n, DoUpdate(env)), between) && back.rx.Received? && U.IsCopy(back.rx.packet, env.rx.packet)
    requires F.Remembers(Run(Act(n, DoUpdate(env)), between).filter.history, HeaderOf(env.rx.packet))
    ensures var b := Run(Act(n, DoUpdate(env)), between);
            var r := Act(b, DoUpdate(back));
            r.history.broadcasts == b.history.broadcasts && r.client.broadcast == b.client.broadcast
  {
    hide Inv, Run, Takes, Update, F.Remembers, AllowedRun;
    var b := Run(Act(n, DoUpdate(env)), between);
    SameSansHopMeaning(back.rx.packet, env.rx.packet);
    SeenIsNotTaken(Begin(b), back);
  }

  /** It does remember, at first. */
  lemma TakingIsRemembered(n: Node, env: Env)
    requires Inv(n) && env.rx.Received? && Takes(n, env) && Kind(env.rx.packet) == PKT_REGISTER_VALUE
    ensures F.Remembers(Update(n, env).filter.history, HeaderOf(env.rx.packet))
  {
    hide Inv, Update, LooksKnown, LastSeen, Decodable, F.Remembers, F.Hear, F.Seen, F.Tracks;
    if OnMesh(n.state) && !T.IsDuplicate(n, env.rx) {
      ValueIsSeen(n, env);
      UpdateTakes(n, env);
      FilterTracks(Update(n, env));
      F.SeenIsRemembered(Update(n, env).filter, HeaderOf(env.rx.packet));
    } else {
      NothingSeen(n, env);
    }
  }

  // ---- from the sender to the listener ----

  predicate NoListen(actions: seq<Action>) { forall a | a in actions :: !a.DoListen? }

  lemma CallListens(n: Node, a: Action)
    requires Inv(n) && Allowed(n, a) && !a.DoUpdate? && !a.DoListen?
    ensures Act(n, a).client.listening == n.client.listening
  {
    hide Inv, RegisterToPacket, Encodable, SendRequest, SendResponse, Genuine;
  }

  /** A listener listens until it is told otherwise. */
  lemma {:induction false} ListeningStays(n: Node, actions: seq<Action>)
    requires Inv(n) && AllowedRun(n, actions) && NoListen(actions)
    ensures Run(n, actions).client.listening == n.client.listening
    decreases |actions|
  {
    hide Inv, Act, LastSeen, IsNew;
    if actions != [] {
      assert actions[0] in actions;
      ActListens(n, actions[0]);
      ListeningStays(Act(n, actions[0]), actions[1..]);
    }
  }

  lemma ActListens(n: Node, a: Action)
    requires Inv(n) && Allowed(n, a) && !a.DoListen?
    ensures Act(n, a).client.listening == n.client.listening
  {
    hide Inv, Update, LastSeen, IsNew, Ping, GetNumRegisters, GetRegisterName, GetRegister, SetRegister, StartJoin, Broadcast;
    if a.DoUpdate? { UpdateTakes(Begin(n), a.env); } else { CallListens(n, a); }
  }

  /** A broadcast, from end to end. On the mesh, a client's register goes out as one packet under node id 0; and
      when that packet, relayed any number of times, reaches a node whose client listens with a register of its
      own, whatever that node did since, the listener is told once, and its register has the name and value that
      were broadcast; unless the packet was handled before, or looks known. */
  lemma RemoteBroadcast(m: Node, reg: Register, now: uint32, l: Node, own: Register, between: seq<Action>, back: Env)
    requires Inv(m) && OnMesh(m.state) && Servable(reg) && Inv(l)
    requires AllowedRun(Act(l, DoListen(true, own)), between) && NoListen(between)
    requires back.rx.Received? && U.IsCopy(back.rx.packet, B.BroadcastOf(m, reg))
    requires S.Reaches(Run(Act(l, DoListen(true, own)), between), back.rx.packet, PKT_REGISTER_VALUE)
    requires Decodable(back.rx.packet, true) ==>
               !LooksKnown(back.rx.packet, Run(Act(l, DoListen(true, own)), between).client.broadcast)
    ensures Act(m, DoBroadcast(reg, now)).history.air == [Tx(Originated, B.BroadcastOf(m, reg))]
    ensures var b := Run(Act(l, DoListen(true, own)), between);
            var r := Act(b, DoUpdate(back));
            r.history.broadcasts == b.history.broadcasts + 1 && Fits(r.client.broadcast) &&
            Name(r.client.broadcast) == Name(reg) && Value(r.client.broadcast) == Value(reg)
  {
    hide Inv, Update, Run, AllowedRun, NoListen, LooksKnown, Decodable, PacketName, PacketValue, Name, Value, Fits, F.Hear, F.Seen,
         RegisterToPacket, HeaderFor, Ping, GetNumRegisters, GetRegisterName, GetRegister, SetRegister, StartJoin;
    var listens := Act(l, DoListen(true, own));
    var b := Run(listens, between);
    ListeningStays(listens, between);
    BroadcastSays(m, reg, back.rx.packet);
    BroadcastIsTaken(Begin(b), back);
    SentAsBroadcast(m, reg, now);
  }

  lemma SentAsBroadcast(m: Node, reg: Register, now: uint32)
    requires Inv(m) && OnMesh(m.state) && Servable(reg)
    ensures Act(m, DoBroadcast(reg, now)).history.air == [Tx(Originated, B.BroadcastOf(m, reg))]
  {
    hide Inv, RegisterToPacket, HeaderFor, Called, Broadcast;
    assert HeaderFor(Begin(m), PKT_REGISTER_VALUE) == HeaderFor(m, PKT_REGISTER_VALUE) by { SameHeader(m); }
  }

  lemma SameHeader(m: Node)
    requires Inv(m)
    ensures HeaderFor(Begin(m), PKT_REGISTER_VALUE) == HeaderFor(m, PKT_REGISTER_VALUE)
  {
    hide Inv;
  }

  /** What a copy of a broadcast carries. */
  lemma BroadcastSays(m: Node, reg: Register, p: Packet)
    requires Servable(reg) && U.IsCopy(p, B.BroadcastOf(m, reg))
    ensures Sender(p) == 0 && Decodable(p, true) && PacketName(p) == Name(reg) && PacketValue(p) == Value(reg)
  {
    hide RegisterToPacket, HeaderFor, PacketName, PacketValue, Name, Value;
    var h := HeaderFor(m, PKT_REGISTER_VALUE)[NODE_ID_AT := 0];
    S.EncodesValue(h, reg);
    B.HeaderStays(h, reg);
    U.CopySays(p, B.BroadcastOf(m, reg));
    S.HopKeepsRegister(p, B.BroadcastOf(m, reg));
  }
}
