/** What one node does about ids and operations: exactly when it moves to another id, when it joins the
    mesh, when it answers a duplicate, and when its operations end. */
module Joining {
  import opened Bytes
  import opened Packets
  import opened Registers
  import opened Model
  import opened Operations
  import F = Filter
  import R = Relay
  import Q = Responses

  /** A packet that makes a joining node give up its id. */
  predicate Evicts(n: Node, p: Packet) { Dislodges(p, n.nodeId, n.uniqueId) }

  predicate Evicted(n: Node, rx: Rx) { rx.Received? && Evicts(n, rx.packet) }

  ghost predicate Sends(air: seq<Tx>, kind: byte, id: byte, uniqueId: uint16) {
    exists i | 0 <= i < |air| :: IsAbout(air[i].packet, kind, id, uniqueId)
  }

  lemma SendsGrows(air: seq<Tx>, more: seq<Tx>, kind: byte, id: byte, uniqueId: uint16)
    requires Sends(air, kind, id, uniqueId) && air <= more
    ensures Sends(more, kind, id, uniqueId)
  {
    var i :| 0 <= i < |air| && IsAbout(air[i].packet, kind, id, uniqueId);
    assert more[i] == air[i];
  }

  lemma OwnHeader(n: Node, kind: byte)
    ensures IsAbout(HeaderFor(n, kind), kind, n.nodeId, n.uniqueId)
  {
    HeaderFields(kind, n.request.sequence, n.nodeId, n.uniqueId,
      if kind == PKT_GET_NUM_REGISTERS || kind == PKT_GET_REGISTER_NAME then n.request.targetNodeId else 0);
  }

  /** Off the mesh, a node serves nothing, relays nothing, and has no operation to time out. */
  lemma OffMeshIsDeaf(n: Node, env: Env)
    requires Inv(n) && !OnMesh(n.state)
    ensures Serve(n, env) == n
    ensures Genuine(Id(n), n.packet) ==> CacheForRepeat(n) == n
    ensures UpdateRepeats(n, env.relayTime, env.relayDelay) == n
    ensures UpdatePing(n, env.pingTime) == n && CheckTimeouts(n, env.timeoutTime) == n
  {
    hide F.CacheInv, R.RingInv, Q.QueueInv;
    assert ServeDirectory(n, env) == n;
    assert ServeRegisters(n, env) == n;
  }

  lemma ClaimsItsId(n: Node)
    requires Inv(n) && n.state != NotJoined
    ensures n.history.claims == n.history.claims + {n.nodeId}
  {
  }

  /** Receiving, while joining: evicted, the node claims the next id from the start; else nothing of
      its join changes. */
  lemma ReceiveWhileJoining(n: Node, env: Env)
    requires Inv(n) && n.state == Joining
    ensures var r := HandleRx(n, env);
            r.state == Joining && r.nodeId == (if Evicted(n, env.rx) then NextId(n.nodeId) else n.nodeId) &&
            r.joinFirstTx == (if Evicted(n, env.rx) then env.rxTime else n.joinFirstTx) &&
            r.request.sentTime == (if Evicted(n, env.rx) then env.rxTime else n.request.sentTime) &&
            r.history.claims == n.history.claims + {r.nodeId}
    ensures Evicted(n, env.rx) ==> Sends(HandleRx(n, env).history.air, PKT_JOIN, NextId(n.nodeId), n.uniqueId)
    ensures !Evicted(n, env.rx) ==> HandleRx(n, env).history.air == n.history.air
  {
    hide Inv, Receive, Regard, Serve;
    ClaimsItsId(n);
    if env.rx.Received? {
      var n1 := Receive(n, env.rx.packet, env.rxTime);
      var n2 := Regard(n1, env.rxTime);
      OffMeshIsDeaf(n2, env);
      EvictionStep(n1, env.rxTime);
    }
  }

  lemma EvictionStep(n: Node, now: uint32)
    requires Inv(n) && n.state == Joining && Genuine(Id(n), n.packet)
    ensures var r := Regard(n, now);
            r.nodeId == (if Evicts(n, n.packet) then NextId(n.nodeId) else n.nodeId) &&
            r.joinFirstTx == (if Evicts(n, n.packet) then now else n.joinFirstTx) &&
            r.request.sentTime == (if Evicts(n, n.packet) then now else n.request.sentTime) &&
            r.history.claims == n.history.claims + {r.nodeId}
    ensures Evicts(n, n.packet) ==> Sends(Regard(n, now).history.air, PKT_JOIN, NextId(n.nodeId), n.uniqueId)
    ensures !Evicts(n, n.packet) ==> Regard(n, now).history.air == n.history.air
  {
    hide F.CacheInv, R.RingInv, Q.QueueInv;
    var n1 := ExpireHandled(n);
    var n2 := HandleConflictName(n1, now);
    var n3 := HandleDeferredJoining(n2, now);
    OwnHeader(n.(nodeId := NextId(n.nodeId)), PKT_JOIN);
    var own := Tx(Originated, HeaderFor(n.(nodeId := NextId(n.nodeId)), PKT_JOIN));
    if Evicts(n, n.packet) {
      if ConflictForUs(n1) { ConflictJoinIsOwn(n1, now); }
      assert n3.history.air == n.history.air + [own];
      assert n3.history.air[|n.history.air|] == own;
    }
  }

  /** After giving way to a CONFLICT_NAME packet the cache holds the node's own JOIN, which it does not
      defer to. */
  lemma ConflictJoinIsOwn(n: Node, now: uint32)
    requires Inv(n) && n.state == Joining && Genuine(Id(n), n.packet) && ConflictForUs(n)
    ensures var r := HandleConflictName(n, now);
            r.packet == HeaderFor(n.(nodeId := NextId(n.nodeId)), PKT_JOIN) && !MustDefer(r) &&
            r.history.air == n.history.air + [Tx(Originated, r.packet)]
  {
    OwnHeader(n.(nodeId := NextId(n.nodeId)), PKT_JOIN);
    assert MarkHandled(n).request == n.request;
  }

  /** A CONFLICT_NAME packet that evicts the node is marked as handled. */
  lemma ConflictIsMarked(n: Node, env: Env)
    requires Inv(n) && n.state == Joining && env.rx.Received? && Kind(env.rx.packet) == PKT_CONFLICT_NAME
    requires Evicts(n, env.rx.packet)
    ensures var p := env.rx.packet;
            HandleRx(n, env).filter.history ==
            n.filter.history + [F.Heard(Sequence(p), UniqueId(p)), F.Handled(HeaderOf(p))]
  {
    hide Inv, Receive, Regard, Serve, F.Expired;
    var n1 := Receive(n, env.rx.packet, env.rxTime);
    OffMeshIsDeaf(Regard(n1, env.rxTime), env);
    RegardMarksConflict(n1, env.rxTime);
  }

  lemma RegardMarksConflict(n: Node, now: uint32)
    requires Inv(n) && n.state == Joining && Genuine(Id(n), n.packet) && ConflictForUs(n)
    ensures Regard(n, now).filter.history ==
            n.filter.history + [F.Heard(Sequence(n.packet), UniqueId(n.packet)), F.Handled(HeaderOf(n.packet))]
  {
    hide Inv, Join, Genuine, F.Expired, Continues, Calm;
    ConflictJoinIsOwn(ExpireHandled(n), now);
  }

  /** The id, and the times of its first and last JOIN, that a joining node has once `rx` is dealt with. */
  function WantedId(n: Node, env: Env): byte { if Evicted(n, env.rx) then NextId(n.nodeId) else n.nodeId }

  function FirstJoin(n: Node, env: Env): uint32 { if Evicted(n, env.rx) then env.rxTime else n.joinFirstTx }

  function LastJoin(n: Node, env: Env): uint32 { if Evicted(n, env.rx) then env.rxTime else n.request.sentTime }

  predicate Accepts(n: Node, env: Env) { Elapsed(env.joinTime, FirstJoin(n, env)) > 5000 }

  predicate Resends(n: Node, env: Env) {
    !Accepts(n, env) && Elapsed(env.joinTime, LastJoin(n, env)) > n.joinRetransmitDelay
  }

  /** Nothing has been sent since but relayed and repeated packets. */
  predicate NothingOriginated(before: seq<Tx>, after: seq<Tx>) {
    before <= after && forall k | |before| <= k < |after| :: after[k].origin != Originated
  }

  /** One update of a joining node, exactly: the id it wants next, whether it takes itself to be on the
      mesh, and when it sends a JOIN; at other times it sends nothing of its own. */
  lemma UpdateWhileJoining(n: Node, env: Env)
    requires Inv(n) && n.state == Joining
    ensures var r := Update(n, env);
            r.nodeId == WantedId(n, env) && r.history.claims == n.history.claims + {r.nodeId} &&
            r.state == (if Accepts(n, env) then Idle else Joining) &&
            (r.state == Joining ==> r.joinFirstTx == FirstJoin(n, env)) &&
            (r.state == Joining ==> r.request.sentTime == if Resends(n, env) then env.joinTime else LastJoin(n, env))
    ensures Evicted(n, env.rx) || Resends(n, env) ==>
              Sends(Update(n, env).history.air, PKT_JOIN, WantedId(n, env), n.uniqueId)
    ensures !Evicted(n, env.rx) && !Resends(n, env) ==> NothingOriginated(n.history.air, Update(n, env).history.air)
  {
    hide Inv, HandleRx, UpdateAfterRx;
    ReceiveWhileJoining(n, env);
    JoinTimers(HandleRx(n, env), env);
  }

  predicate JoinIsDue(n: Node, env: Env) { Elapsed(env.joinTime, n.request.sentTime) > n.joinRetransmitDelay }

  lemma JoinTimers(n: Node, env: Env)
    requires Inv(n) && n.state == Joining
    ensures var r := UpdateAfterRx(n, env);
            r.nodeId == n.nodeId && r.history.claims == n.history.claims &&
            r.state == (if Elapsed(env.joinTime, n.joinFirstTx) > JOIN_ACCEPT_DELAY then Idle else Joining) &&
            (r.state == Joining ==> r.joinFirstTx == n.joinFirstTx) &&
            (r.state == Joining ==> r.request.sentTime == if JoinIsDue(n, env) then env.joinTime else n.request.sentTime)
    ensures UpdateAfterRx(n, env).state == Joining && JoinIsDue(n, env) ==>
              Sends(UpdateAfterRx(n, env).history.air, PKT_JOIN, n.nodeId, n.uniqueId)
    ensures n.history.air <= UpdateAfterRx(n, env).history.air
    ensures !(UpdateAfterRx(n, env).state == Joining && JoinIsDue(n, env)) ==>
              NothingOriginated(n.history.air, UpdateAfterRx(n, env).history.air)
  {
    hide F.CacheInv, R.RingInv, Q.QueueInv, UpdateRepeaters;
    var j := UpdateJoin(n, env.joinTime);
    OwnHeader(n, PKT_JOIN);
    assert j.history.air != n.history.air ==> j.history.air[|n.history.air|] == Tx(Originated, HeaderFor(n, PKT_JOIN));
    RepeatersKeepJoin(UpdateTimers(n, env), env);
  }

  lemma RepeatersKeepJoin(n: Node, env: Env)
    requires Inv(n)
    ensures var r := UpdateRepeaters(n, env);
            r.nodeId == n.nodeId && r.joinFirstTx == n.joinFirstTx && r.request.sentTime == n.request.sentTime &&
            r.history.claims == n.history.claims && r.history.heard == n.history.heard &&
            NothingOriginated(n.history.air, r.history.air)
  {
    hide Inv, UpdateRepeats, UpdateResponseRepeats, UpdateRequestRepeats;
    var n1 := UpdateRepeats(n, env.relayTime, env.relayDelay);
    var n2 := UpdateResponseRepeats(n1, env.responseTime, env.responseDelay, env.stray);
    RepeatingOriginatesNothing(n1, env.responseTime, env.responseDelay, env.stray);
    AskingAgainOriginatesNothing(n2, env.requestTime, env.requestDelay);
  }

  lemma RepeatingOriginatesNothing(n: Node, now: uint32, delay: uint16, stray: Register)
    requires Inv(n)
    ensures NothingOriginated(n.history.air, UpdateResponseRepeats(n, now, delay, stray).history.air)
  {
    hide Inv, Rebuilt;
  }

  lemma AskingAgainOriginatesNothing(n: Node, now: uint32, delay: uint16)
    requires Inv(n)
    ensures NothingOriginated(n.history.air, UpdateRequestRepeats(n, now, delay).history.air)
  {
    hide Inv;
  }

  /** A packet under a joined node's own id, from another node, is answered by one CONFLICT_NAME packet and
      by nothing else: no handler sees it, whatever its type and whichever unique id is higher. The
      CONFLICT_NAME packet takes the place of the request to be repeated. */
  lemma DuplicateIsAnswered(n: Node, env: Env)
    requires Inv(n) && OnMesh(n.state) && env.rx.Received?
    requires Sender(env.rx.packet) == n.nodeId && UniqueId(env.rx.packet) != n.uniqueId
    ensures var r := HandleRx(n, env);
            r.history.air == n.history.air + [Tx(Originated, HeaderFor(n, PKT_CONFLICT_NAME))] &&
            r.request.pending == HeaderFor(n, PKT_CONFLICT_NAME) &&
            r.state == n.state && r.nodeId == n.nodeId && r.filter == n.filter && r.registers == n.registers &&
            r.request.sentTime == env.rxTime && r.history.completions == n.history.completions
  {
    hide Inv, Receive, Regard, Serve;
  }

  lemma UpdateSendsConflict(n: Node, env: Env)
    requires Inv(n) && OnMesh(n.state) && env.rx.Received?
    requires Sender(env.rx.packet) == n.nodeId && UniqueId(env.rx.packet) != n.uniqueId
    ensures Sends(Update(n, env).history.air, PKT_CONFLICT_NAME, n.nodeId, n.uniqueId)
  {
    hide Inv, HandleRx, UpdateAfterRx;
    DuplicateIsAnswered(n, env);
    OwnHeader(n, PKT_CONFLICT_NAME);
    assert HandleRx(n, env).history.air[|n.history.air|] == Tx(Originated, HeaderFor(n, PKT_CONFLICT_NAME));
    SendsGrows(HandleRx(n, env).history.air, Update(n, env).history.air, PKT_CONFLICT_NAME, n.nodeId, n.uniqueId);
  }

  /** A node that has started to join changes its id exactly when, still joining, it receives a packet
      that evicts it; no client call and no other packet moves it. */
  lemma IdChangesExactly(n: Node, a: Action)
    requires Inv(n) && Allowed(n, a) && n.state != NotJoined
    ensures Act(n, a).nodeId != n.nodeId <==> a.DoUpdate? && n.state == Joining && Evicted(n, a.env.rx)
  {
    hide Inv, Update, Begin;
    if a.DoUpdate? && n.state == Joining { UpdateWhileJoining(Begin(n), a.env); }
  }

  /** The README's self-healing rule, that the lower unique id re-joins, is not what nodes on the mesh
      do: told of a conflict by a node with a higher unique id, such a node keeps its id and claims it. */
  lemma LowerUniqueIdStays(n: Node, env: Env)
    requires Inv(n) && OnMesh(n.state) && env.rx.Received?
    requires Kind(env.rx.packet) == PKT_CONFLICT_NAME && Sender(env.rx.packet) == n.nodeId
    requires UniqueId(env.rx.packet) > n.uniqueId
    ensures var r := Update(n, env);
            OnMesh(r.state) && r.nodeId == n.nodeId && Sends(r.history.air, PKT_CONFLICT_NAME, n.nodeId, n.uniqueId)
  {
    UpdateSendsConflict(n, env);
  }

  // ---- runs ----

  predicate AllowedRun(n: Node, actions: seq<Action>)
    requires Inv(n)
    decreases |actions|
  {
    actions == [] || (Allowed(n, actions[0]) && AllowedRun(Act(n, actions[0]), actions[1..]))
  }

  function Run(n: Node, actions: seq<Action>): (r: Node)
    requires Inv(n) && AllowedRun(n, actions)
    ensures Inv(r)
    decreases |actions|
  {
    if actions == [] then n else Run(Act(n, actions[0]), actions[1..])
  }

  /** In every run: no request is handled twice without eight others in between or its sender nearing its
      number again; packets are relayed in the order accepted, once each, one hop further, and none again
      while it is among the last two; every response that left its ring was repeated exactly six times,
      and no older one is behind a newer. */
  lemma EveryRunIsOrderly(n: Node, actions: seq<Action>)
    requires Inv(n) && AllowedRun(n, actions)
    ensures var r := Run(n, actions);
            F.AtMostOnce(r.filter.history) &&
            R.Shaped(r.relay) && R.Fifo(r.relay) && R.NoEcho(r.relay.accepted) &&
            Q.Shaped(r.responses) && Q.Accounted(r.responses) && Q.Fair(r.responses)
  {
    hide Act, F.AtMostOnce, R.Fifo, R.NoEcho, Q.Accounted, Q.Fair;
  }

  /** Membership is permanent: in every run, once a node is on the mesh it stays there, under one id. */
  lemma {:induction false} MembershipIsPermanent(n: Node, actions: seq<Action>)
    requires Inv(n) && AllowedRun(n, actions) && OnMesh(n.state)
    ensures OnMesh(Run(n, actions).state) && Run(n, actions).nodeId == n.nodeId
    decreases |actions|
  {
    hide Inv, Act;
    if actions != [] { MembershipIsPermanent(Act(n, actions[0]), actions[1..]); }
  }

  /** In every run of a node from its start, every operation begun has been reported to its callback
      exactly once or is the one operation under way; and there is always a callback to report to. */
  lemma {:induction false} EveryOperationIsReportedOnce(n: Node, actions: seq<Action>)
    requires Inv(n) && AllowedRun(n, actions) && Balanced(n)
    ensures var r := Run(n, actions);
            |r.history.completions| == r.history.started - (if Awaiting(r.state) then 1 else 0) &&
            (r.state != NotJoined ==> r.client.callback != NullCallback)
    decreases |actions|
  {
    if actions != [] { ActKeepsBalance(n, actions[0]); EveryOperationIsReportedOnce(Act(n, actions[0]), actions[1..]); }
  }

  /** So it is for every node from its initialization on. */
  lemma ReportsFromTheStart(uniqueId: uint16, retransmitDelay: uint16, randomDelay: uint16, registers: seq<Register>,
                            actions: seq<Action>)
    requires |registers| <= 255
    requires (InitIsSound(uniqueId, retransmitDelay, randomDelay, registers);
              AllowedRun(Init(uniqueId, retransmitDelay, randomDelay, registers), actions))
    ensures var r := Run(Init(uniqueId, retransmitDelay, randomDelay, registers), actions);
            |r.history.completions| == r.history.started - (if Awaiting(r.state) then 1 else 0)
  {
    InitIsSound(uniqueId, retransmitDelay, randomDelay, registers);
    EveryOperationIsReportedOnce(Init(uniqueId, retransmitDelay, randomDelay, registers), actions);
  }

  lemma ActKeepsBalance(n: Node, a: Action)
    requires Inv(n) && Allowed(n, a) && Balanced(n)
    ensures Balanced(Act(n, a))
  {
    hide Inv, Act;
  }

  // ---- timeouts ----

  /** The time limit of an operation, and the clock reading it is checked against. */
  function Limit(s: State): nat { if s == Pinging then 4000 else 2000 }

  function CheckedAt(s: State, env: Env): uint32 { if s == Pinging then env.pingTime else env.timeoutTime }

  /** The last time the node sent a request, as of the timeout check: a CONFLICT_NAME packet sent in
      answer to a duplicate counts as one and pushes the timeout back. */
  function LastRequest(n: Node, env: Env): uint32 {
    if env.rx.Received? && Sender(env.rx.packet) == n.nodeId && UniqueId(env.rx.packet) != n.uniqueId
    then env.rxTime else n.request.sentTime
  }

  lemma ReceivingKeepsRequestTime(n: Node, env: Env)
    requires Inv(n) && OnMesh(n.state)
    ensures HandleRx(n, env).request.sentTime == LastRequest(n, env)
    ensures HandleRx(n, env).state == n.state || HandleRx(n, env).state == Idle
  {
    hide Inv, Receive, SendConflict, Serve, CacheForRepeat;
  }

  lemma TimersEnd(n: Node, env: Env)
    requires Inv(n) && OnMesh(n.state) && n.state != Idle
    ensures var r := UpdateTimers(n, env);
            var late := Elapsed(CheckedAt(n.state, env), n.request.sentTime) > Limit(n.state);
            r.state == (if late then Idle else n.state) &&
            r.history.completions == n.history.completions +
              if late then [if n.state == Pinging then StatusOk else Timeout] else []
  {
    hide Inv;
  }

  /** An operation that no response ends is ended by the first update past its time limit, by one
      callback, and never before. */
  lemma OperationEndsOnTime(n: Node, env: Env)
    requires Inv(n) && OnMesh(n.state) && n.state != Idle
    requires HandleRx(n, env).state == n.state
    ensures var r := Update(n, env);
            var late := Elapsed(CheckedAt(n.state, env), LastRequest(n, env)) > Limit(n.state);
            r.state == (if late then Idle else n.state) &&
            r.history.completions == n.history.completions +
              if late then [if n.state == Pinging then StatusOk else Timeout] else []
  {
    hide Inv, HandleRx, UpdateRepeaters;
    ReceivingKeepsRequestTime(n, env);
    var m := HandleRx(n, env);
    assert m.history.completions == n.history.completions;
    TimersEnd(m, env);
    assert Update(n, env).history.completions == UpdateTimers(m, env).history.completions;
  }

  /** At the latest then, whatever arrived: past the limit the node is idle, and has reported once. */
  lemma OperationEndsAtTheLatest(n: Node, env: Env)
    requires Inv(n) && OnMesh(n.state) && n.state != Idle
    requires Elapsed(CheckedAt(n.state, env), LastRequest(n, env)) > Limit(n.state)
    ensures Update(n, env).state == Idle && |Update(n, env).history.completions| == |n.history.completions| + 1
  {
    hide Inv, HandleRx, UpdateAfterRx;
    ReceivingKeepsRequestTime(n, env);
    if HandleRx(n, env).state == n.state {
      OperationEndsOnTime(n, env);
    } else {
      IdleStaysIdle(HandleRx(n, env), env);
    }
  }

  lemma IdleStaysIdle(n: Node, env: Env)
    requires Inv(n) && n.state == Idle
    ensures UpdateAfterRx(n, env).state == Idle
  {
    hide Inv, UpdateRepeaters;
  }
}
