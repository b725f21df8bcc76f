/** What a ping finds out: after any run of updates the presence table lists exactly the nodes whose
    PONGs were taken since the ping. */
module Survey {
  import opened Bytes
  import opened Packets
  import opened Registers
  import opened Model
  import opened Operations
  import opened Joining
  import B = Rebuild
  import F = Filter
  import P = Presence
  import Q = Responses
  import S = Server

  /** A node on the mesh; while it pings, it takes PONGs from everyone. */
  predicate Surveys(n: Node) {
    OnMesh(n.state) && (n.state == Pinging ==> n.request.targetNodeId == 0 && n.request.targetUniqueId == 0)
  }

  /** The id an update adds. A pinging node that answers another's PING takes its own answer for a PONG,
      since the handlers share one packet buffer. */
  function PongTaken(n: Node, env: Env): set<byte> {
    if n.state != Pinging || !env.rx.Received? then {}
    else if S.Reaches(n, env.rx.packet, PKT_PING) && UniqueId(env.rx.packet) != n.uniqueId then {n.nodeId}
    else if Kind(env.rx.packet) == PKT_PONG &&
            !(Sender(env.rx.packet) == n.nodeId && UniqueId(env.rx.packet) != n.uniqueId)
      then {Sender(env.rx.packet)}
    else {}
  }

  lemma PongHandlersRecord(n: Node, now: uint32)
    requires Inv(n) && Surveys(n)
    ensures var r := HandlePong(HandlePing(n, now));
            P.Members(r.presence) == P.Members(n.presence) +
              if n.state != Pinging then {}
              else if n.uniqueId != UniqueId(n.packet) && Passes(n, PKT_PING) then {n.nodeId}
              else if Kind(n.packet) == PKT_PONG then {Sender(n.packet)}
              else {}
  {
    hide Inv, P.Members, P.WithPresent, F.Seen, F.Mark;
    TableFits(n);
    var m := HandlePing(n, now);
    OwnPongIsAnswer(n, now);
    P.WithPresentAdds(n.presence, Sender(m.packet));
  }

  lemma TableFits(n: Node)
    requires Inv(n)
    ensures |n.presence| == P.TABLE_BYTES
  {
  }

  lemma OwnPongIsAnswer(n: Node, now: uint32)
    requires Inv(n) && Surveys(n)
    ensures var m, answers := HandlePing(n, now), n.uniqueId != UniqueId(n.packet) && Passes(n, PKT_PING);
            m.presence == n.presence && (!answers ==> m == n) &&
            (answers ==> Kind(m.packet) == PKT_PONG && Sender(m.packet) == n.nodeId && Surveys(m) && m.state == n.state)
  {
    hide Inv, F.Seen, F.Mark;
  }

  lemma ServingRecords(n: Node, env: Env)
    requires Inv(n) && Surveys(n)
    ensures Serve(n, env).presence == HandlePong(HandlePing(n, env.rxTime)).presence
  {
    hide Inv, HandlePing, HandlePong, HandleGetNumRegisters, HandleNumRegisters, HandleGetRegisterName,
         HandleRegisterName, ServeRegisters;
  }

  lemma ReceivingRecords(n: Node, env: Env)
    requires Inv(n) && Surveys(n)
    ensures P.Members(HandleRx(n, env).presence) == P.Members(n.presence) + PongTaken(n, env)
  {
    hide Inv, Receive, Regard, Serve, SendConflict, P.Members, F.Hear, F.Seen, HandlePing, HandlePong;
    if env.rx.Received? {
      var n1 := Receive(n, env.rx.packet, env.rxTime);
      var n2 := Regard(n1, env.rxTime);
      S.HandlersSee(n, env.rx.packet, env.rxTime);
      if !SeesDuplicateId(n1) {
        S.RegardKeepsAsking(n1, env.rxTime);
        ServingRecords(n2, env);
        PongHandlersRecord(n2, env.rxTime);
      }
    }
  }

  lemma AfterRxKeepsPresence(n: Node, env: Env)
    requires Inv(n)
    ensures UpdateAfterRx(n, env).presence == n.presence
  {
    hide Inv, UpdateJoin, UpdatePing, CheckTimeouts, UpdateRepeaters;
  }

  lemma StillSurveys(n: Node, env: Env)
    requires Inv(n) && Surveys(n)
    ensures Surveys(Update(n, env))
  {
    hide Inv, HandleRx, UpdateAfterRx;
    ReceivingSurveys(n, env);
    AfterRxSurveys(HandleRx(n, env), env);
  }

  lemma ReceivingSurveys(n: Node, env: Env)
    requires Inv(n) && Surveys(n)
    ensures Surveys(HandleRx(n, env))
  {
    hide Inv, Receive, Regard, Serve;
    if env.rx.Received? {
      S.RegardKeepsAsking(Receive(n, env.rx.packet, env.rxTime), env.rxTime);
    }
  }

  lemma AfterRxSurveys(n: Node, env: Env)
    requires Inv(n) && Surveys(n)
    ensures Surveys(UpdateAfterRx(n, env))
  {
    hide Inv, UpdatePing, CheckTimeouts, UpdateRepeats, UpdateResponseRepeats;
  }

  /** One update adds to the table exactly the PONG it takes. */
  lemma UpdateRecords(n: Node, env: Env)
    requires Inv(n) && Surveys(n)
    ensures var r := Update(n, env);
            Surveys(r) && P.Members(r.presence) == P.Members(n.presence) + PongTaken(n, env)
  {
    hide Inv, HandleRx, UpdateAfterRx, P.Members, PongTaken;
    StillSurveys(n, env);
    ReceivingRecords(n, env);
    AfterRxKeepsPresence(HandleRx(n, env), env);
  }

  function Updates(n: Node, envs: seq<Env>): (r: Node)
    requires Inv(n)
    ensures Inv(r)
    decreases |envs|
  {
    hide Inv;
    if envs == [] then n else Updates(Update(n, envs[0]), envs[1..])
  }

  function PongsTaken(n: Node, envs: seq<Env>): set<byte>
    requires Inv(n)
    decreases |envs|
  {
    hide Inv;
    if envs == [] then {} else PongTaken(n, envs[0]) + PongsTaken(Update(n, envs[0]), envs[1..])
  }

  lemma {:induction false} UpdatesRecord(n: Node, envs: seq<Env>)
    requires Inv(n) && Surveys(n)
    ensures |Updates(n, envs).presence| == P.TABLE_BYTES && Surveys(Updates(n, envs))
    ensures P.Members(Updates(n, envs).presence) == P.Members(n.presence) + PongsTaken(n, envs)
    decreases |envs|
  {
    hide Inv, Update, P.Members, PongTaken;
    TableFits(n);
    if envs != [] {
      UpdateRecords(n, envs[0]);
      UpdatesRecord(Update(n, envs[0]), envs[1..]);
    }
  }

  /** A survey is exact: after a ping and any run of updates, a client that iterates over the present
      nodes from 0 on sees, in ascending order and once each, exactly the ids from 1 to 254 whose PONGs
      were taken since the ping. */
  lemma SurveyIsExact(n: Node, user: Callback, now: uint32, envs: seq<Env>)
    requires Inv(n) && n.state == Idle
    ensures var pinging := Act(n, DoPing(user, now));
            var r := Updates(pinging, envs);
            |r.presence| == P.TABLE_BYTES &&
            var seen := P.Iterate(r.presence, 0);
            P.Ascending(seen) && forall id: byte :: id in seen <==> 1 <= id <= 254 && id in PongsTaken(pinging, envs)
  {
    hide Inv, Update, P.Iterate, P.IsPresent, P.Ascending, Updates, PongsTaken;
    PingSurveys(n, user, now);
    var pinging := Act(n, DoPing(user, now));
    UpdatesRecord(pinging, envs);
    P.NobodyIsEmpty();
    P.IterateIsSortedMembers(Updates(pinging, envs).presence, 0);
  }

  lemma PingSurveys(n: Node, user: Callback, now: uint32)
    requires Inv(n) && n.state == Idle
    ensures Surveys(Act(n, DoPing(user, now))) && Act(n, DoPing(user, now)).presence == P.Nobody()
  {
    hide Inv;
  }

  // ---- answering a ping ----

  /** Nobody but the PING and PONG handlers has any use for a PONG. */
  lemma PongPassesOn(n: Node, env: Env)
    requires Inv(n) && Kind(n.packet) == PKT_PONG
    ensures HandlePing(n, env.rxTime) == n
    ensures HandleNumRegisters(HandleGetNumRegisters(n, env.rxTime)) == n
    ensures HandleRegisterName(HandleGetRegisterName(n, env.rxTime), env.strayByte) == n
    ensures ServeRegisters(n, env) == n
  {
    hide Inv;
  }

  lemma PongIsLast(n: Node, env: Env)
    requires Inv(n) && n.uniqueId != UniqueId(n.packet) && Passes(n, PKT_PING) && OnMesh(n.state)
    ensures Serve(n, env) == HandlePong(HandlePing(n, env.rxTime))
    ensures HandlePing(n, env.rxTime) == Reply(MarkHandled(n), HeaderFor(n, PKT_PONG), env.rxTime)
  {
    hide Inv, F.Seen, F.Mark, HandlePong, HandleGetNumRegisters, HandleNumRegisters, HandleGetRegisterName,
         HandleRegisterName, ServeRegisters;
    var g := HandlePing(n, env.rxTime);
    PongIsKept(g);
    PongPassesOn(HandlePong(g), env);
  }

  lemma PongIsKept(n: Node)
    requires Inv(n)
    ensures HandlePong(n) == n.(presence := HandlePong(n).presence)
  {
    hide Inv;
  }

  /** Receiving a PING of another node that was not handled before: a PONG goes on the air, and, with room in
      the ring, becomes the newest response to be repeated. */
  lemma ReceivingAnswersPing(n: Node, env: Env)
    requires Inv(n) && env.rx.Received? && S.Reaches(n, env.rx.packet, PKT_PING) && UniqueId(env.rx.packet) != n.uniqueId
    ensures HandleRx(n, env).history.air == n.history.air + [Tx(Originated, HeaderFor(n, PKT_PONG))]
    ensures QueuesPong(n, n.responses, HandleRx(n, env).responses, env.rxTime)
  {
    hide Inv, Receive, Regard, Serve, F.Hear, F.Seen, F.Mark, Reply, QueuesPong, HeaderFor;
    var n1 := Receive(n, env.rx.packet, env.rxTime);
    var n2 := Regard(n1, env.rxTime);
    S.HandlersSee(n, env.rx.packet, env.rxTime);
    S.RegardKeepsAsking(n1, env.rxTime);
    ReceiveKeepsQueue(n, env.rx.packet, env.rxTime);
    RegardKeepsQueue(n1, env.rxTime);
    PongIsLast(n2, env);
    var m := MarkHandled(n2);
    PongIsReplied(m, env.rxTime);
    SamePong(n, n2, env.rxTime);
    SamePong(n, m, env.rxTime);
    PongIsKept(HandlePing(n2, env.rxTime));
  }

  /** The PONG is the newest response, if there is room; in any case the delay between responses starts anew. */
  ghost predicate QueuesPong(n: Node, q: Q.Queue, r: Q.Queue, now: uint32) {
    Q.Shaped(q) && Q.Shaped(r) && r.lastSent == now &&
    (q.size < 2 ==>
       r.size == q.size + 1 && r.popped == q.popped &&
       Q.Live(r, q.size) == B.SummaryOf(n, HeaderFor(n, PKT_PONG), 0, Q.Live(q, q.size).data) &&
       (forall k | 0 <= k < q.size :: Q.Live(r, k) == Q.Live(q, k))) &&
    (q.size == 2 ==> r == Q.Stamp(q, now))
  }

  lemma SamePong(n: Node, m: Node, now: uint32)
    requires m.nodeId == n.nodeId && m.uniqueId == n.uniqueId && m.request == n.request && m.registers == n.registers
    ensures HeaderFor(m, PKT_PONG) == HeaderFor(n, PKT_PONG)
    ensures forall q, r :: QueuesPong(m, q, r, now) == QueuesPong(n, q, r, now)
  {
  }

  lemma PongIsReplied(n: Node, now: uint32)
    requires Inv(n)
    ensures QueuesPong(n, n.responses, Reply(n, HeaderFor(n, PKT_PONG), now).responses, now)
  {
    hide Inv, Reply, HeaderFor;
    var p := HeaderFor(n, PKT_PONG);
    PongReplied(n, p, now);
    if n.responses.size < 2 { B.ReplyIsSummarized(n, p, now); }
  }

  lemma ReceiveKeepsQueue(n: Node, p: Packet, now: uint32)
    requires Inv(n)
    ensures Receive(n, p, now).responses == n.responses && Receive(n, p, now).registers == n.registers
  {
    hide Inv;
  }

  lemma RegardKeepsQueue(n: Node, now: uint32)
    requires Inv(n) && Genuine(Id(n), n.packet) && OnMesh(n.state)
    ensures Regard(n, now).responses == n.responses
  {
    hide Inv, HandleConflictName, HandleDeferredJoining, F.Hear;
  }

  lemma PongReplied(n: Node, p: Packet, now: uint32)
    requires Inv(n) && IsReply(Kind(p))
    ensures var q, r := n.responses, Reply(n, p, now).responses;
            Q.Shaped(q) && Q.Shaped(r) && r.lastSent == now && (q.size == 2 ==> r == Q.Stamp(q, now))
  {
    hide F.CacheInv, Q.Accounted, Q.Fair, GenuineAir, GenuineSlots, RepliesOnly;
    Q.AppendIsNewest(n.responses, Kind(p), Sequence(p), SummaryData(p, n.registers), SummaryHasData(Kind(p)));
  }

  /** So every PING of another node is answered, once. */
  lemma PingIsAnswered(n: Node, env: Env)
    requires Inv(n) && env.rx.Received? && S.Reaches(n, env.rx.packet, PKT_PING) && UniqueId(env.rx.packet) != n.uniqueId
    ensures S.Answered(Update(n, env).history.air, HeaderFor(n, PKT_PONG))
  {
    hide Inv, HandleRx, UpdateAfterRx, F.Hear, F.Seen, QueuesPong, HeaderFor;
    ReceivingAnswersPing(n, env);
    var air := HandleRx(n, env).history.air;
    assert air[|n.history.air|] == Tx(Originated, HeaderFor(n, PKT_PONG));
    S.AnsweredGrows(air, Update(n, env).history.air, HeaderFor(n, PKT_PONG));
  }

  // ---- runs ----

  /** The ping's time is over at this update. */
  predicate PingIsOver(n: Node, env: Env) { Elapsed(env.pingTime, LastRequest(n, env)) > 4000 }

  /** Nothing that is received ends a ping. */
  lemma NothingEndsPing(n: Node, env: Env)
    requires Inv(n) && n.state == Pinging
    ensures HandleRx(n, env).state == Pinging
  {
    hide Inv, Receive, Regard, Serve, SendConflict;
    if env.rx.Received? && !SeesDuplicateId(Receive(n, env.rx.packet, env.rxTime)) {
      ServingEndsNoPing(Regard(Receive(n, env.rx.packet, env.rxTime), env.rxTime), env);
    }
  }

  lemma ServingEndsNoPing(n: Node, env: Env)
    requires Inv(n) && n.state == Pinging
    ensures Serve(n, env).state == Pinging
  {
    hide Inv, ServeDirectory, ServeRegisters;
    DirectoryEndsNoPing(n, env);
    RegistersEndNoPing(ServeDirectory(n, env), env);
  }

  lemma DirectoryEndsNoPing(n: Node, env: Env)
    requires Inv(n) && n.state == Pinging
    ensures ServeDirectory(n, env).state == Pinging
  {
    hide Inv, HandlePing, HandleGetNumRegisters, HandleGetRegisterName, HandlePong;
    PresenceEndsNoPing(n, env.rxTime);
    NumbersEndNoPing(HandlePong(HandlePing(n, env.rxTime)), env.rxTime);
    NamesEndNoPing(HandleNumRegisters(HandleGetNumRegisters(HandlePong(HandlePing(n, env.rxTime)), env.rxTime)),
                   env.strayByte, env.rxTime);
  }

  lemma PresenceEndsNoPing(n: Node, now: uint32)
    requires Inv(n) && n.state == Pinging
    ensures HandlePong(HandlePing(n, now)).state == Pinging
  {
    hide Inv, F.Seen, F.Mark;
  }

  lemma NumbersEndNoPing(n: Node, now: uint32)
    requires Inv(n) && n.state == Pinging
    ensures HandleNumRegisters(HandleGetNumRegisters(n, now)).state == Pinging
  {
    hide Inv, F.Seen, F.Mark;
  }

  lemma NamesEndNoPing(n: Node, strayByte: byte, now: uint32)
    requires Inv(n) && n.state == Pinging
    ensures HandleRegisterName(HandleGetRegisterName(n, now), strayByte).state == Pinging
  {
    hide Inv, F.Seen, F.Mark, NameReply;
  }

  lemma RegistersEndNoPing(n: Node, env: Env)
    requires Inv(n) && n.state == Pinging
    ensures ServeRegisters(n, env).state == Pinging
  {
    hide Inv, F.Seen, F.Mark, FindRegister, RegisterToPacket, SetRequested, SetAck, NameAndValueMatch, PacketToRegister;
  }

  /** One update of a pinging node: the ping goes on exactly until its time is over. */
  lemma PingGoesOn(n: Node, env: Env)
    requires Inv(n) && n.state == Pinging
    ensures Update(n, env).state == if PingIsOver(n, env) then Idle else Pinging
  {
    hide Inv, HandleRx, UpdateAfterRx;
    NothingEndsPing(n, env);
    OperationEndsOnTime(n, env);
  }

  /** No update of the run is past the ping's time. */
  predicate PingLasts(n: Node, actions: seq<Action>)
    requires Inv(n) && AllowedRun(n, actions)
    decreases |actions|
  {
    actions == [] ||
    ((actions[0].DoUpdate? ==> !PingIsOver(n, actions[0].env)) && PingLasts(Act(n, actions[0]), actions[1..]))
  }

  /** No new ping clears the table. */
  predicate NoPing(actions: seq<Action>) { forall a | a in actions :: !a.DoPing? }

  lemma CallKeepsSurvey(n: Node, a: Action)
    requires Inv(n) && Surveys(n) && Allowed(n, a) && !a.DoUpdate? && (!a.DoPing? || n.state != Idle)
    ensures Act(n, a).presence == n.presence && Surveys(Act(n, a)) && (n.state == Pinging ==> Act(n, a).state == Pinging)
  {
    hide Inv, RegisterToPacket, Encodable, SendRequest, SendResponse, Genuine, P.Members;
  }

  /** An action takes no id from the table, unless it is a new ping. */
  lemma ActKeepsSurvey(n: Node, a: Action)
    requires Inv(n) && Surveys(n) && Allowed(n, a) && (!a.DoPing? || n.state != Idle)
    ensures Surveys(Act(n, a)) && |n.presence| == |Act(n, a).presence| == P.TABLE_BYTES
    ensures P.Members(n.presence) <= P.Members(Act(n, a).presence)
    ensures n.state == Pinging ==>
              Act(n, a).state == if a.DoUpdate? && PingIsOver(n, a.env) then Idle else Pinging
  {
    hide Inv, Update, P.Members, PongTaken;
    TableFits(n);
    TableFits(Act(n, a));
    if a.DoUpdate? {
      UpdateRecords(Begin(n), a.env);
      if n.state == Pinging { PingGoesOn(Begin(n), a.env); }
    } else {
      CallKeepsSurvey(n, a);
    }
  }

  lemma {:induction false} PingRun(n: Node, actions: seq<Action>)
    requires Inv(n) && n.state == Pinging && Surveys(n) && AllowedRun(n, actions) && PingLasts(n, actions)
    ensures Run(n, actions).state == Pinging && Surveys(Run(n, actions))
    ensures Run(n, actions).nodeId == n.nodeId && Run(n, actions).uniqueId == n.uniqueId
    decreases |actions|
  {
    hide Inv, Act, P.Members, PingIsOver;
    if actions != [] {
      ActKeepsSurvey(n, actions[0]);
      PingRun(Act(n, actions[0]), actions[1..]);
    }
  }

  lemma {:induction false} TableStays(n: Node, actions: seq<Action>)
    requires Inv(n) && Surveys(n) && AllowedRun(n, actions) && NoPing(actions)
    ensures |n.presence| == |Run(n, actions).presence| == P.TABLE_BYTES
    ensures P.Members(n.presence) <= P.Members(Run(n, actions).presence)
    decreases |actions|
  {
    hide Inv, Act, P.Members, PingIsOver;
    TableFits(n);
    if actions != [] {
      assert actions[0] in actions;
      ActKeepsSurvey(n, actions[0]);
      TableStays(Act(n, actions[0]), actions[1..]);
    }
  }
}
