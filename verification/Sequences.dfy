/** Sequence numbers: every request, JOIN, CONFLICT_NAME and broadcast of a node carries the number behind the one
    before, in every run; so the filter of a node that hears one of them lets the next ones pass. */
module Sequences {
  import opened Bytes
  import opened Packets
  import opened Registers
  import opened Model
  import opened Operations
  import opened Joining
  import opened Traffic
  import F = Filter
  import R = Relay
  import Q = Responses
  import S = Server

  /** The packets an action numbers: what it originates but replies. */
  function Numbered(n: Node, a: Action): seq<Packet>
    requires Inv(n) && Allowed(n, a)
  {
    hide Inv, Act;
    var air := Act(n, a).history.air;
    if a.DoBroadcast? && air != [] then [air[0].packet] else PacketsOf(air, Requests)
  }

  /** The packets are this node's, of a type of their own, and carry consecutive numbers from `start` on. */
  predicate Consecutive(s: seq<Packet>, start: nibble, uniqueId: uint16) {
    forall k | 0 <= k < |s| :: Sequence(s[k]) == (start + k) % 16 && UniqueId(s[k]) == uniqueId && Kind(s[k]) != 0
  }

  /** All requests on the air so far are numbered, and the number of the next one is known. */
  ghost predicate InStep(n: Node, start: nibble) {
    var s := PacketsOf(n.history.air, Requests);
    Consecutive(s, start, n.uniqueId) && n.request.sequence == (start + |s|) % 16
  }

  lemma QuietStep(n: Node, r: Node, start: nibble)
    requires InStep(n, start) && NoneSince(n.history.air, r.history.air, Requests)
    requires r.request.sequence == n.request.sequence && r.uniqueId == n.uniqueId
    ensures InStep(r, start)
  {
    NoneSinceAddsNone(n.history.air, r.history.air, Requests);
  }

  lemma LoudStep(n: Node, r: Node, p: Packet, start: nibble)
    requires InStep(n, start) && r.uniqueId == n.uniqueId && r.history.air == n.history.air + [Tx(Originated, p)]
    requires !IsReply(Kind(p)) && Kind(p) != 0 && Sequence(p) == n.request.sequence && UniqueId(p) == n.uniqueId
    requires r.request.sequence == (n.request.sequence + 1) % 16
    ensures InStep(r, start)
  {
    OneMore(n.history.air, Tx(Originated, p), Requests);
    NextNumber(start, |PacketsOf(n.history.air, Requests)|);
  }

  lemma NextNumber(start: nat, k: nat)
    ensures ((start + k) % 16 + 1) % 16 == (start + k + 1) % 16
  {
  }

  /** The headers of the packets a node numbers. */
  lemma OwnNumber(n: Node, kind: byte)
    ensures Sequence(HeaderFor(n, kind)) == n.request.sequence && UniqueId(HeaderFor(n, kind)) == n.uniqueId
  {
    HeaderFields(kind, n.request.sequence, n.nodeId, n.uniqueId,
      if kind == PKT_GET_NUM_REGISTERS || kind == PKT_GET_REGISTER_NAME then n.request.targetNodeId else 0);
  }

  // ---- the phases of an update ----

  lemma JoinsInStep(n: Node, id: byte, user: Callback, now: uint32, start: nibble)
    requires Inv(n) && !OnMesh(n.state) && InStep(n, start)
    ensures InStep(Join(n, id, user, now), start)
  {
    hide Inv, Join, Genuine, InStep, HeaderFor;
    OwnNumber(n.(nodeId := id), PKT_JOIN);
    LoudStep(n, Join(n, id, user, now), HeaderFor(n.(nodeId := id), PKT_JOIN), start);
  }

  lemma ConflictInStep(n: Node, now: uint32, start: nibble)
    requires Inv(n) && Genuine(Id(n), n.packet) && InStep(n, start)
    ensures InStep(HandleConflictName(n, now), start)
  {
    hide Inv, F.Mark, Join, Genuine, Continues, InStep, Calm;
    if ConflictForUs(n) && n.state == Joining {
      assert InStep(MarkHandled(n), start) by { SameAirInStep(n, MarkHandled(n), start); }
      JoinsInStep(MarkHandled(n), NextId(n.nodeId), n.client.callback, now, start);
    }
  }

  lemma SameAirInStep(n: Node, r: Node, start: nibble)
    requires InStep(n, start) && r.history.air == n.history.air && r.request.sequence == n.request.sequence
    requires r.uniqueId == n.uniqueId
    ensures InStep(r, start)
  {
  }

  lemma DeferringInStep(n: Node, now: uint32, start: nibble)
    requires Inv(n) && Genuine(Id(n), n.packet) && InStep(n, start)
    ensures InStep(HandleDeferredJoining(n, now), start)
  {
    hide Inv, Join, Genuine, Continues, InStep;
    if n.state == Joining && MustDefer(n) { JoinsInStep(n, NextId(n.nodeId), n.client.callback, now, start); }
  }

  lemma RegardingInStep(n: Node, now: uint32, start: nibble)
    requires Inv(n) && Genuine(Id(n), n.packet) && InStep(n, start)
    ensures InStep(Regard(n, now), start)
  {
    hide Inv, F.Hear, Genuine, HandleConflictName, HandleDeferredJoining, CacheForRepeat, Continues, InStep;
    var n1 := ExpireHandled(n);
    SameAirInStep(n, n1, start);
    ConflictInStep(n1, now, start);
    var n2 := HandleConflictName(n1, now);
    DeferringInStep(n2, now, start);
    SameAirInStep(HandleDeferredJoining(n2, now), Regard(n, now), start);
  }

  lemma DefendsInStep(n: Node, now: uint32, start: nibble)
    requires Inv(n) && OnMesh(n.state) && InStep(n, start)
    ensures InStep(SendConflict(n, now), start)
  {
    hide Inv, SendConflict, Genuine, Continues, InStep, HeaderFor;
    OwnNumber(n, PKT_CONFLICT_NAME);
    LoudStep(n, SendConflict(n, now), HeaderFor(n, PKT_CONFLICT_NAME), start);
  }

  lemma ReceivingInStep(n: Node, env: Env, start: nibble)
    requires Inv(n) && InStep(n, start)
    ensures InStep(HandleRx(n, env), start)
  {
    hide Inv, Receive, Regard, Serve, SendConflict, Continues, InStep, Traffic.Answers;
    match env.rx
    case NoData =>
    case Corrupt(bytes) => SameAirInStep(n, n.(packet := bytes), start);
    case Received(p) =>
      var n1 := Receive(n, p, env.rxTime);
      ReceiptInStep(n, p, env.rxTime, start);
      if SeesDuplicateId(n1) {
        DefendsInStep(n1, env.rxTime, start);
      } else {
        var n2 := Regard(n1, env.rxTime);
        RegardingInStep(n1, env.rxTime, start);
        ServingInStep(n2, env, start);
      }
  }

  lemma ReceiptInStep(n: Node, p: Packet, now: uint32, start: nibble)
    requires Inv(n) && InStep(n, start)
    ensures InStep(Receive(n, p, now), start)
  {
    hide Inv, InStep, Continues;
    SameAirInStep(n, Receive(n, p, now), start);
  }

  lemma ServingInStep(n: Node, env: Env, start: nibble)
    requires Inv(n) && InStep(n, start)
    ensures InStep(Serve(n, env), start)
  {
    hide Inv, Serve, InStep;
    ServingAnswers(n, env);
    AnswersAddNone(n, Serve(n, env), Requests);
    QuietStep(n, Serve(n, env), start);
  }

  lemma TimersInStep(n: Node, env: Env, start: nibble)
    requires Inv(n) && InStep(n, start)
    ensures InStep(UpdateTimers(n, env), start)
  {
    hide Inv, InStep, UpdateJoin, Continues, UpdatePing, CheckTimeouts;
    JoinTimerInStep(n, env.joinTime, start);
    var j := UpdateJoin(n, env.joinTime);
    PingSendsNothing(j, env);
    SameAirInStep(j, UpdateTimers(n, env), start);
  }

  lemma JoinTimerInStep(n: Node, now: uint32, start: nibble)
    requires Inv(n) && InStep(n, start)
    ensures InStep(UpdateJoin(n, now), start)
  {
    hide Inv, InStep, ResendJoin, Continues, HeaderFor;
    if n.state == Joining {
      if Elapsed(now, n.joinFirstTx) > JOIN_ACCEPT_DELAY {
        SameAirInStep(n, Accepted(n), start);
      } else if Elapsed(now, n.request.sentTime) > n.joinRetransmitDelay {
        OwnNumber(n, PKT_JOIN);
        LoudStep(n, ResendJoin(n, now), HeaderFor(n, PKT_JOIN), start);
      }
    }
  }

  lemma RepeatersInStep(n: Node, env: Env, start: nibble)
    requires Inv(n) && InStep(n, start)
    ensures InStep(UpdateRepeaters(n, env), start)
  {
    hide Inv, InStep, UpdateRepeaters, RingAfter, QueueAfter, RelayIsDue, RepeatsResponse, RepeatsRequest, ResponseToRepeat, R.Outgoing;
    RepeatersState(n, env);
    RepeatersAir(n, env);
    QuietStep(n, UpdateRepeaters(n, env), start);
  }

  lemma UpdateInStep(n: Node, env: Env, start: nibble)
    requires Inv(n) && InStep(n, start)
    ensures InStep(Update(n, env), start)
  {
    hide Inv, InStep, HandleRx, UpdateTimers, UpdateRepeaters;
    ReceivingInStep(n, env, start);
    TimersInStep(HandleRx(n, env), env, start);
    RepeatersInStep(UpdateTimers(HandleRx(n, env), env), env, start);
  }

  // ---- calls ----

  lemma EncodingKeepsNumber(h: Packet, r: Register, withValue: bool)
    ensures var p := RegisterToPacket(h, r, withValue);
            Sequence(p) == Sequence(h) && UniqueId(p) == UniqueId(h)
  {
    if Encodable(r, withValue) {
      EncodedFields(h, r, withValue);
      var p := RegisterToPacket(h, r, withValue);
      assert forall k | 0 <= k < DATA_AT :: p[k] == p[..DATA_AT][k] == h[..DATA_AT][k] == h[k];
    }
  }

  lemma OneRequest(n: Node, a: Action, p: Packet)
    requires Inv(n) && Allowed(n, a) && !a.DoBroadcast? && SendsRequest(Begin(n), Act(n, a), p)
    requires !IsReply(Kind(p)) && Kind(p) != 0
    requires Sequence(p) == n.request.sequence && UniqueId(p) == n.uniqueId
    ensures Consecutive(Numbered(n, a), n.request.sequence, n.uniqueId)
    ensures Act(n, a).request.sequence == (n.request.sequence + |Numbered(n, a)|) % 16
  {
    hide Inv, Act;
    OneMore([], Tx(Originated, p), Requests);
  }

  lemma NoRequest(n: Node, a: Action)
    requires Inv(n) && Allowed(n, a) && !a.DoBroadcast? && Act(n, a).history.air == []
    requires Act(n, a).request.sequence == n.request.sequence
    ensures Consecutive(Numbered(n, a), n.request.sequence, n.uniqueId)
    ensures Act(n, a).request.sequence == (n.request.sequence + |Numbered(n, a)|) % 16
  {
    hide Inv, Act;
    NothingSent();
  }

  /** What a request call sends carries the node's next number. */
  lemma DirectoryInStep(n: Node, a: Action)
    requires Inv(n) && n.state == Idle && (a.DoPing? || a.DoGetNumRegisters? || a.DoGetRegisterName?)
    ensures Consecutive(Numbered(n, a), n.request.sequence, n.uniqueId)
    ensures Act(n, a).request.sequence == (n.request.sequence + |Numbered(n, a)|) % 16
  {
    hide Inv, Ping, GetNumRegisters, GetRegisterName, GetRegister, SetRegister, StartJoin, Broadcast, Listen, HeaderFor,
         RegisterToPacket, Encodable, Called, PacketsOf, Consecutive, Numbered, SendsRequest;
    var b := Begin(n);
    match a {
      case DoPing(user, now) =>
        OwnNumber(b, PKT_PING);
        OneRequest(n, a, HeaderFor(b, PKT_PING));
      case DoGetNumRegisters(target, uniqueId, user, now) =>
        OwnNumber(b, PKT_GET_NUM_REGISTERS);
        OneRequest(n, a, HeaderFor(b, PKT_GET_NUM_REGISTERS)[TARGET_AT := target]);
      case DoGetRegisterName(target, index, uniqueId, user, now) =>
        OwnNumber(b, PKT_GET_REGISTER_NAME);
        OneRequest(n, a, HeaderFor(b, PKT_GET_REGISTER_NAME)[TARGET_AT := target][REG_INDEX_AT := index]);
    }
  }

  lemma RegistersInStep(n: Node, a: Action)
    requires Inv(n) && n.state == Idle && (a.DoGetRegister? || a.DoSetRegister?)
    ensures Consecutive(Numbered(n, a), n.request.sequence, n.uniqueId)
    ensures Act(n, a).request.sequence == (n.request.sequence + |Numbered(n, a)|) % 16
  {
    hide Inv, Ping, GetNumRegisters, GetRegisterName, GetRegister, SetRegister, StartJoin, Broadcast, Listen, HeaderFor,
         RegisterToPacket, Encodable, Called, PacketsOf, Consecutive, Numbered, SendsRequest;
    var b := Begin(n);
    match a {
      case DoGetRegister(register, user, now) =>
        OwnNumber(b, PKT_GET_REGISTER);
        EncodingKeepsNumber(HeaderFor(b, PKT_GET_REGISTER), register, false);
        if Encodable(register, false) {
          OneRequest(n, a, RegisterToPacket(HeaderFor(b, PKT_GET_REGISTER), register, false));
        } else {
          NoRequest(n, a);
        }
      case DoSetRegister(register, user, now) =>
        OwnNumber(b, PKT_SET_REGISTER);
        EncodingKeepsNumber(HeaderFor(b, PKT_SET_REGISTER), register, true);
        if Encodable(register, true) {
          OneRequest(n, a, RegisterToPacket(HeaderFor(b, PKT_SET_REGISTER), register, true));
        } else {
          NoRequest(n, a);
        }
    }
  }

  lemma NothingSent()
    ensures PacketsOf([], Requests) == []
  {
  }

  lemma BroadcastInStep(n: Node, a: Action)
    requires Inv(n) && a.DoBroadcast?
    ensures Consecutive(Numbered(n, a), n.request.sequence, n.uniqueId)
    ensures Act(n, a).request.sequence == (n.request.sequence + |Numbered(n, a)|) % 16
  {
    hide Inv, HeaderFor, RegisterToPacket, Encodable, Called, PacketsOf, SendResponse;
    NothingSent();
    OwnNumber(Begin(n), PKT_REGISTER_VALUE);
    var h := HeaderFor(Begin(n), PKT_REGISTER_VALUE)[NODE_ID_AT := 0];
    EncodingKeepsNumber(h, a.register, true);
  }

  lemma QuietCallInStep(n: Node, a: Action)
    requires Inv(n) && Allowed(n, a) && !a.DoUpdate? && !a.DoJoin? && !a.DoBroadcast? && (n.state != Idle || a.DoListen?)
    ensures Numbered(n, a) == [] && Act(n, a).request == n.request && Consecutive([], n.request.sequence, n.uniqueId)
  {
    hide Inv, Ping, GetNumRegisters, GetRegisterName, GetRegister, SetRegister, StartJoin, Broadcast, Listen, Called, PacketsOf;
    NothingSent();
  }

  lemma JoinCallInStep(n: Node, a: Action)
    requires Inv(n) && Allowed(n, a) && a.DoJoin?
    ensures InStep(Act(n, a), n.request.sequence)
  {
    hide Inv, StartJoin, InStep, HeaderFor, Called;
    var b := Begin(n);
    BeginsInStep(n);
    JoinCallIsNext(b, a.id, a.user, a.now);
    OwnNumber(b.(nodeId := a.id), PKT_JOIN);
    LoudStep(b, Act(n, a), HeaderFor(b.(nodeId := a.id), PKT_JOIN), n.request.sequence);
  }

  lemma JoinCallIsNext(n: Node, id: byte, user: Callback, now: uint32)
    requires Inv(n) && n.state == NotJoined
    ensures IsNext(n, StartJoin(n, id, user, now))
  {
    hide Inv, Join;
    StartedIsSound(n);
  }

  lemma StartedIsSound(n: Node)
    requires Inv(n)
    ensures Inv(n.(history := n.history.(started := n.history.started + 1)))
  {
    hide F.CacheInv, R.RingInv, Q.QueueInv, Genuine;
  }

  lemma BeginsInStep(n: Node)
    requires Inv(n)
    ensures InStep(Begin(n), n.request.sequence)
  {
    hide Inv;
    NothingSent();
  }

  /** Every action numbers what it sends from the node's number on, and leaves the number behind the last. */
  lemma ActNumbers(n: Node, a: Action)
    requires Inv(n) && Allowed(n, a)
    ensures Consecutive(Numbered(n, a), n.request.sequence, n.uniqueId)
    ensures Act(n, a).request.sequence == (n.request.sequence + |Numbered(n, a)|) % 16
  {
    hide Inv, Update, StartJoin, Ping, GetNumRegisters, GetRegisterName, GetRegister, SetRegister, Broadcast, Listen, Begin,
         PacketsOf, Consecutive;
    match a {
      case DoUpdate(env) =>
        BeginsInStep(n);
        UpdateInStep(Begin(n), env, n.request.sequence);
      case DoJoin(_, _, _) => JoinCallInStep(n, a);
      case DoBroadcast(_, _) => BroadcastInStep(n, a);
      case DoListen(_, _) => QuietCallInStep(n, a);
      case _ =>
        if n.state != Idle { QuietCallInStep(n, a); }
        else if a.DoGetRegister? || a.DoSetRegister? { RegistersInStep(n, a); }
        else { DirectoryInStep(n, a); }
    }
  }

  // ---- runs ----

  /** All packets numbered in a run, in order. */
  function NumberedIn(n: Node, actions: seq<Action>): seq<Packet>
    requires Inv(n) && AllowedRun(n, actions)
    decreases |actions|
  {
    hide Inv, Act, Numbered;
    if actions == [] then [] else Numbered(n, actions[0]) + NumberedIn(Act(n, actions[0]), actions[1..])
  }

  /** In every run, the k-th request, JOIN, CONFLICT_NAME or broadcast carries the number k behind the first. */
  lemma {:induction false} RunNumbers(n: Node, actions: seq<Action>)
    requires Inv(n) && AllowedRun(n, actions)
    ensures Consecutive(NumberedIn(n, actions), n.request.sequence, n.uniqueId)
    ensures Run(n, actions).request.sequence == (n.request.sequence + |NumberedIn(n, actions)|) % 16
    ensures Run(n, actions).uniqueId == n.uniqueId
    decreases |actions|
  {
    hide Inv, Act, Numbered, Consecutive;
    if actions == [] {
      NoNumbers(n.request.sequence, n.uniqueId);
    } else {
      var r := Act(n, actions[0]);
      ActNumbers(n, actions[0]);
      RunNumbers(r, actions[1..]);
      NumbersAdd(Numbered(n, actions[0]), NumberedIn(r, actions[1..]), n.request.sequence, n.uniqueId);
    }
  }

  lemma NoNumbers(start: nibble, uniqueId: uint16)
    ensures Consecutive([], start, uniqueId)
  {
  }

  lemma NumbersAdd(a: seq<Packet>, b: seq<Packet>, start: nibble, uniqueId: uint16)
    requires Consecutive(a, start, uniqueId) && Consecutive(b, (start + |a|) % 16, uniqueId)
    ensures Consecutive(a + b, start, uniqueId)
    ensures ((start + |a|) % 16 + |b|) % 16 == (start + |a + b|) % 16
  {
    forall k | 0 <= k < |a + b|
      ensures Sequence((a + b)[k]) == (start + k) % 16 && UniqueId((a + b)[k]) == uniqueId && Kind((a + b)[k]) != 0
    {
      if k >= |a| { ModAdds(start + |a|, k - |a|); }
    }
    ModAdds(start + |a|, |b|);
  }

  lemma ModAdds(a: nat, b: nat)
    ensures (a % 16 + b) % 16 == (a + b) % 16
  {
  }

  // ---- at the hearer ----

  lemma AfterRxKeepsFilter(n: Node, env: Env)
    requires Inv(n) && OnMesh(n.state)
    ensures UpdateAfterRx(n, env).filter == n.filter
  {
    hide Inv, UpdatePing, CheckTimeouts, UpdateRepeaters, RingAfter, QueueAfter, RepeatsRequest;
    RepeatersState(UpdateTimers(n, env), env);
    TimeoutsKeepFilter(n, env);
  }

  lemma TimeoutsKeepFilter(n: Node, env: Env)
    requires Inv(n)
    ensures CheckTimeouts(UpdatePing(n, env.pingTime), env.timeoutTime).filter == n.filter
  {
    hide Inv;
  }

  /** A packet is heard. */
  function HeardOf(p: Packet): F.Event { F.Heard(Sequence(p), UniqueId(p)) }

  /** On the mesh, the filter's history grows by the packet received, and by what was handled of it. */
  lemma UpdateHears(n: Node, env: Env)
    requires Inv(n) && OnMesh(n.state)
    ensures n.filter.history <= Update(n, env).filter.history
    ensures env.rx.Received? && !IsDuplicate(n, env.rx) ==>
              n.filter.history + [HeardOf(env.rx.packet)] <= Update(n, env).filter.history
  {
    hide Inv, HandleRx, UpdateAfterRx;
    AfterRxKeepsFilter(HandleRx(n, env), env);
    if IsDuplicate(n, env.rx) { DuplicateIsAnswered(n, env); } else { ReceivingOnMesh(n, env); }
  }

  lemma ActRemembers(n: Node, a: Action)
    requires Inv(n) && OnMesh(n.state) && Allowed(n, a)
    ensures OnMesh(Act(n, a).state) && n.filter.history <= Act(n, a).filter.history
  {
    hide Inv, Update, Ping, GetNumRegisters, GetRegisterName, GetRegister, SetRegister, StartJoin, Broadcast, Listen;
    if a.DoUpdate? { UpdateHears(Begin(n), a.env); }
  }

  lemma {:induction false} RunRemembers(n: Node, actions: seq<Action>)
    requires Inv(n) && OnMesh(n.state) && AllowedRun(n, actions)
    ensures OnMesh(Run(n, actions).state) && n.filter.history <= Run(n, actions).filter.history
    decreases |actions|
  {
    hide Inv, Act;
    if actions != [] {
      ActRemembers(n, actions[0]);
      RunRemembers(Act(n, actions[0]), actions[1..]);
    }
  }

  /** The hearer has handled no such packet since. */
  predicate NotHandledSince(n: Node, r: Node, p: Packet) {
    forall i | |n.filter.history| <= i < |r.filter.history| :: r.filter.history[i] != F.Handled(HeaderOf(p))
  }

  /** A node's requests pass each other by: a node on the mesh that heard the k-th packet a sender numbered lets
      its next ones pass, up to two of them lost in between, whatever else it heard and handled meanwhile, unless
      it has handled that very packet already. */
  lemma NextRequestPasses(m: Node, mine: seq<Action>, k: nat, j: nat, n: Node, env: Env, between: seq<Action>, q: Packet)
    requires Inv(m) && AllowedRun(m, mine) && 1 <= j <= 3 && k + j < |NumberedIn(m, mine)|
    requires Inv(n) && OnMesh(n.state) && env.rx.Received? && !IsDuplicate(n, env.rx)
    requires SansHop(env.rx.packet) == SansHop(NumberedIn(m, mine)[k])
    requires AllowedRun(Act(n, DoUpdate(env)), between)
    requires SansHop(q) == SansHop(NumberedIn(m, mine)[k + j])
    requires NotHandledSince(n, Run(Act(n, DoUpdate(env)), between), q)
    requires !IsDuplicate(Run(Act(n, DoUpdate(env)), between), Received(q))
    ensures S.Reaches(Run(Act(n, DoUpdate(env)), between), q, Kind(q))
  {
    hide Inv, Update, Run, NumberedIn, AllowedRun, F.Seen, F.Expired, F.Tracks, F.AtMostOnce;
    var s, p, h := NumberedIn(m, mine), env.rx.packet, Act(n, DoUpdate(env));
    var b := Run(h, between);
    RunNumbers(m, mine);
    CopyOfNumber(p, s[k]);
    CopyOfNumber(q, s[k + j]);
    UpdateHears(Begin(n), env);
    ActRemembers(n, DoUpdate(env));
    RunRemembers(h, between);
    var c := F.Hear(b.filter, Sequence(q), UniqueId(q));
    var at := |n.filter.history|;
    assert n.filter.history + [HeardOf(p)] <= h.filter.history <= b.filter.history;
    assert b.filter.history[at] == HeardOf(p);
    FilterIsSound(b, q);
    Apart(m.request.sequence, k, j);
    F.FreshRequestPasses(c, HeaderOf(q), at);
  }

  lemma CopyOfNumber(q: Packet, p: Packet)
    requires SansHop(q) == SansHop(p)
    ensures Sequence(q) == Sequence(p) && UniqueId(q) == UniqueId(p) && Kind(q) == Kind(p)
  {
    SameSansHopMeaning(q, p);
  }

  lemma FilterIsSound(n: Node, q: Packet)
    requires Inv(n)
    ensures F.Tracks(F.Hear(n.filter, Sequence(q), UniqueId(q)))
  {
    hide F.Tracks, F.AtMostOnce, R.RingInv, Q.QueueInv, GenuineAir, GenuineSlots, RepliesOnly;
    F.HearTracks(n.filter, Sequence(q), UniqueId(q));
  }

  lemma Apart(start: nat, k: nat, j: nat)
    requires 1 <= j <= 3
    ensures 1 <= ((start + (k + j)) % 16 - (start + k) % 16) % 16 <= 3
  {
  }
}
