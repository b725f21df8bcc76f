/** What each phase of an update puts on the air: while it serves, nothing but replies of the node's own; on its
    timers, nothing but JOINs; and then at most one relayed packet, one response and one request repeated. */
module Traffic {
  import opened Bytes
  import opened Packets
  import opened Registers
  import opened Model
  import opened Operations
  import F = Filter
  import R = Relay
  import Q = Responses
  import S = Server

  /** What is relayed, what is repeated, and what takes a new sequence number: all that the node originates
      but its replies. */
  datatype Sort = Relays | Repeats | Requests

  predicate IsOf(tx: Tx, s: Sort) {
    match s
    case Relays => tx.origin == Relayed
    case Repeats => tx.origin == Repeated
    case Requests => tx.origin == Originated && !IsReply(Kind(tx.packet))
  }

  /** The packets of one sort, in the order sent. */
  function PacketsOf(air: seq<Tx>, s: Sort): seq<Packet> {
    if air == [] then []
    else
      var last := air[|air| - 1];
      PacketsOf(air[..|air| - 1], s) + if IsOf(last, s) then [last.packet] else []
  }

  lemma OneMore(air: seq<Tx>, tx: Tx, s: Sort)
    ensures PacketsOf(air + [tx], s) == PacketsOf(air, s) + if IsOf(tx, s) then [tx.packet] else []
  {
    assert (air + [tx])[..|air|] == air;
  }

  /** Nothing of this sort has been sent since. */
  predicate NoneSince(before: seq<Tx>, after: seq<Tx>, s: Sort) {
    before <= after && forall k | |before| <= k < |after| :: !IsOf(after[k], s)
  }

  lemma {:induction false} NoneSinceAddsNone(before: seq<Tx>, after: seq<Tx>, s: Sort)
    requires NoneSince(before, after, s)
    ensures PacketsOf(after, s) == PacketsOf(before, s)
    decreases |after|
  {
    if |after| > |before| {
      var rest := after[..|after| - 1];
      assert before <= rest;
      NoneSinceAddsNone(before, rest, s);
    } else {
      assert before == after;
    }
  }

  lemma NoneSinceChains(a: seq<Tx>, b: seq<Tx>, c: seq<Tx>, s: Sort)
    requires NoneSince(a, b, s) && NoneSince(b, c, s)
    ensures NoneSince(a, c, s)
  {
    forall k | |a| <= k < |c| ensures !IsOf(c[k], s) {
      if k < |b| { assert c[k] == b[k]; }
    }
  }

  // ---- serving ----

  /** A step that sends nothing but replies of the node's own, and forgets no packet it heard or handled. */
  ghost predicate Answers(n: Node, r: Node) {
    n.history.air <= r.history.air && n.filter.history <= r.filter.history && r.request == n.request &&
    forall k | |n.history.air| <= k < |r.history.air| ::
      r.history.air[k].origin == Originated && IsReply(Kind(r.history.air[k].packet))
  }

  lemma AnswersChain(a: Node, b: Node, c: Node)
    requires Answers(a, b) && Answers(b, c)
    ensures Answers(a, c)
  {
    forall k | |a.history.air| <= k < |c.history.air|
      ensures c.history.air[k].origin == Originated && IsReply(Kind(c.history.air[k].packet))
    {
      if k < |b.history.air| { assert c.history.air[k] == b.history.air[k]; }
    }
  }

  lemma AnswersAddNone(n: Node, r: Node, s: Sort)
    requires Answers(n, r)
    ensures NoneSince(n.history.air, r.history.air, s)
  {
  }

  lemma PresenceAnswers(n: Node, now: uint32)
    requires Inv(n)
    ensures Answers(n, HandlePong(HandlePing(n, now)))
  {
    hide Inv, F.Seen;
  }

  lemma NumbersAnswer(n: Node, now: uint32)
    requires Inv(n)
    ensures Answers(n, HandleNumRegisters(HandleGetNumRegisters(n, now)))
  {
    hide Inv, F.Seen;
  }

  lemma NamesAnswer(n: Node, strayByte: byte, now: uint32)
    requires Inv(n)
    ensures Answers(n, HandleRegisterName(HandleGetRegisterName(n, now), strayByte))
  {
    hide Inv, F.Seen, NameReply;
  }

  lemma ValuesAnswer(n: Node, getReply: Register, now: uint32)
    requires Inv(n)
    ensures Answers(n, HandleRegisterValue(HandleGetRegister(n, getReply, now)))
  {
    hide Inv, F.Seen, RegisterToPacket, FindRegister, NameMatches;
  }

  lemma SettingAnswers(n: Node, reply: SetReply, now: uint32)
    requires Inv(n)
    ensures Answers(n, HandleSetRegister(n, reply, now))
  {
    hide Inv, F.Seen, SetRequested, SetAck, FindRegister;
  }

  lemma OutcomesAnswer(n: Node, behind: Behind)
    requires Inv(n)
    ensures Answers(n, HandleBroadcast(HandleSetRegisterAck(n), behind))
  {
    hide Inv, F.Seen, NameAndValueMatch, PacketToRegister;
  }

  lemma DirectoryAnswers(n: Node, env: Env)
    requires Inv(n)
    ensures Answers(n, ServeDirectory(n, env))
  {
    hide Inv, Answers, HandlePing, HandlePong, HandleGetNumRegisters, HandleNumRegisters, HandleGetRegisterName,
         HandleRegisterName;
    PresenceAnswers(n, env.rxTime);
    var n1 := HandlePong(HandlePing(n, env.rxTime));
    NumbersAnswer(n1, env.rxTime);
    var n2 := HandleNumRegisters(HandleGetNumRegisters(n1, env.rxTime));
    NamesAnswer(n2, env.strayByte, env.rxTime);
    AnswersChain(n, n1, n2);
    AnswersChain(n, n2, ServeDirectory(n, env));
  }

  lemma RegistersAnswer(n: Node, env: Env)
    requires Inv(n)
    ensures Answers(n, ServeRegisters(n, env))
  {
    hide Inv, Answers, HandleGetRegister, HandleRegisterValue, HandleSetRegister, HandleSetRegisterAck, HandleBroadcast;
    ValuesAnswer(n, env.getReply, env.rxTime);
    var n1 := HandleRegisterValue(HandleGetRegister(n, env.getReply, env.rxTime));
    SettingAnswers(n1, env.setReply, env.rxTime);
    var n2 := HandleSetRegister(n1, env.setReply, env.rxTime);
    OutcomesAnswer(n2, env.behind);
    AnswersChain(n, n1, n2);
    AnswersChain(n, n2, ServeRegisters(n, env));
  }

  lemma ServingAnswers(n: Node, env: Env)
    requires Inv(n)
    ensures Answers(n, Serve(n, env))
  {
    hide Inv, Answers, ServeDirectory, ServeRegisters;
    DirectoryAnswers(n, env);
    RegistersAnswer(ServeDirectory(n, env), env);
    AnswersChain(n, ServeDirectory(n, env), Serve(n, env));
  }

  // ---- receiving ----

  /** Another node's packet under this node's id, while on the mesh. */
  predicate IsDuplicate(n: Node, rx: Rx) {
    OnMesh(n.state) && rx.Received? && Sender(rx.packet) == n.nodeId && UniqueId(rx.packet) != n.uniqueId
  }

  lemma DuplicateIsSeen(n: Node, env: Env)
    requires Inv(n) && env.rx.Received?
    ensures SeesDuplicateId(Receive(n, env.rx.packet, env.rxTime)) <==> IsDuplicate(n, env.rx)
  {
    hide Inv;
  }

  /** Receiving, on the mesh, sends nothing but replies, unless it sends a CONFLICT_NAME. */
  lemma ReceivingOnMesh(n: Node, env: Env)
    requires Inv(n) && OnMesh(n.state) && !IsDuplicate(n, env.rx)
    ensures Answers(n, HandleRx(n, env))
    ensures env.rx.Received? ==>
              var heard := F.Heard(Sequence(env.rx.packet), UniqueId(env.rx.packet));
              n.filter.history + [heard] <= HandleRx(n, env).filter.history
  {
    hide Inv, Receive, Regard, Serve, SendConflict, F.Expired;
    if env.rx.Received? {
      var n1 := Receive(n, env.rx.packet, env.rxTime);
      DuplicateIsSeen(n, env);
      var n2 := Regard(n1, env.rxTime);
      S.HandlersSee(n, env.rx.packet, env.rxTime);
      S.RegardKeepsAsking(n1, env.rxTime);
      ServingAnswers(n2, env);
    }
  }

  /** Before the repeaters, an update relays nothing and repeats nothing. */
  lemma ReceivingSendsOwn(n: Node, env: Env, s: Sort)
    requires Inv(n) && s != Requests
    ensures NoneSince(n.history.air, HandleRx(n, env).history.air, s)
  {
    hide Inv, Receive, Regard, Serve, SendConflict, Answers;
    if env.rx.Received? {
      var n1 := Receive(n, env.rx.packet, env.rxTime);
      if !SeesDuplicateId(n1) {
        var n2 := Regard(n1, env.rxTime);
        RegardSendsOwn(n1, env.rxTime, s);
        ServingAnswers(n2, env);
        AnswersAddNone(n2, Serve(n2, env), s);
        NoneSinceChains(n.history.air, n2.history.air, HandleRx(n, env).history.air, s);
      }
    }
  }

  lemma RegardSendsOwn(n: Node, now: uint32, s: Sort)
    requires Inv(n) && Genuine(Id(n), n.packet) && s != Requests
    ensures NoneSince(n.history.air, Regard(n, now).history.air, s)
  {
    hide Inv, F.Hear, Genuine, Header;
    var n1 := ExpireHandled(n);
    var n2 := HandleConflictName(n1, now);
    ConflictSendsOwn(n1, now, s);
    DeferringSendsOwn(n2, now, s);
    NoneSinceChains(n.history.air, n2.history.air, HandleDeferredJoining(n2, now).history.air, s);
  }

  lemma ConflictSendsOwn(n: Node, now: uint32, s: Sort)
    requires Inv(n) && Genuine(Id(n), n.packet) && s != Requests
    ensures NoneSince(n.history.air, HandleConflictName(n, now).history.air, s)
  {
    hide Inv, F.Mark, Join, Genuine;
  }

  lemma DeferringSendsOwn(n: Node, now: uint32, s: Sort)
    requires Inv(n) && Genuine(Id(n), n.packet) && s != Requests
    ensures NoneSince(n.history.air, HandleDeferredJoining(n, now).history.air, s)
  {
    hide Inv, Join, Genuine;
  }

  lemma TimersSendOwn(n: Node, env: Env, s: Sort)
    requires Inv(n) && s != Requests
    ensures NoneSince(n.history.air, UpdateTimers(n, env).history.air, s)
  {
    hide Inv, UpdatePing, CheckTimeouts;
    PingSendsNothing(UpdateJoin(n, env.joinTime), env);
  }

  lemma PingSendsNothing(n: Node, env: Env)
    requires Inv(n)
    ensures CheckTimeouts(UpdatePing(n, env.pingTime), env.timeoutTime).history.air == n.history.air
  {
    hide Inv;
  }

  /** The node as its repeaters find it. */
  function BeforeRepeating(n: Node, env: Env): (r: Node)
    requires Inv(n)
    ensures Inv(r) && Update(n, env) == UpdateRepeaters(r, env)
  {
    hide Inv, HandleRx, UpdateTimers, UpdateRepeaters;
    UpdateTimers(HandleRx(n, env), env)
  }

  lemma OwnBeforeRepeating(n: Node, env: Env, s: Sort)
    requires Inv(n) && s != Requests
    ensures PacketsOf(BeforeRepeating(n, env).history.air, s) == PacketsOf(n.history.air, s)
  {
    hide Inv, HandleRx, UpdateTimers;
    var m := HandleRx(n, env);
    ReceivingSendsOwn(n, env, s);
    TimersSendOwn(m, env, s);
    NoneSinceChains(n.history.air, m.history.air, BeforeRepeating(n, env).history.air, s);
    NoneSinceAddsNone(n.history.air, BeforeRepeating(n, env).history.air, s);
  }

  // ---- repeating ----

  /** What the three repeaters send, and what they leave behind. */
  lemma RelayPhase(n: Node, now: uint32, delay: uint16)
    requires Inv(n)
    ensures var r, due := UpdateRepeats(n, now, delay), RelayIsDue(n, now);
            r == n.(relay := r.relay, randomDelay := r.randomDelay, history := r.history) &&
            R.Shaped(n.relay) && r.randomDelay == (if due then delay else n.randomDelay) &&
            (due ==> n.relay.size > 0 && r.relay == R.SendOn(n.relay, now)) && (!due ==> r.relay == n.relay) &&
            r.history.air == n.history.air + if due then [Tx(Relayed, R.Outgoing(n.relay))] else []
  {
    hide R.Fifo, R.Remembers, R.NoEcho, F.CacheInv, Q.QueueInv, R.Outgoing, R.SendOn;
    RingSizes(n);
    if n.relay.size > 0 { OutgoingIsSound(n); }
  }

  lemma OutgoingIsSound(n: Node)
    requires Inv(n) && n.relay.size > 0
    ensures R.Shaped(n.relay) && Genuine(Id(n), R.Outgoing(n.relay))
  {
    OutgoingIsGenuine(n);
  }

  /** A packet is queued, and the delay since the last relay, or the last packet received, is over. */
  predicate RelayIsDue(n: Node, now: uint32) {
    OnMesh(n.state) && |n.relay.accepted| > |n.relay.relayed| && Elapsed(now, n.relay.lastSent) > n.randomDelay
  }

  lemma RingSizes(n: Node)
    requires Inv(n)
    ensures R.Shaped(n.relay) && n.relay.size == |n.relay.accepted| - |n.relay.relayed|
  {
  }

  /** A response is queued, and the delay since the last one sent or repeated is over. */
  predicate ResponseIsDue(n: Node, now: uint32) {
    n.state != NotJoined && |n.responses.repeats| > n.responses.popped &&
    Elapsed(now, n.responses.lastSent) > n.randomDelay
  }

  lemma QueueSizes(n: Node)
    requires Inv(n)
    ensures Q.QueueInv(n.responses) && n.responses.size == |n.responses.repeats| - n.responses.popped
  {
  }

  /** The response repeated next: the oldest of the least repeated. */
  function ResponseToRepeat(n: Node, stray: Register): Packet
    requires Inv(n) && n.responses.size > 0
  {
    hide Inv, Rebuilt;
    RepeatsAreSound(n);
    Rebuilt(n, Q.Live(n.responses, Q.Chosen(n.responses)), stray)
  }

  lemma ResponsePhase(n: Node, now: uint32, delay: uint16, stray: Register)
    requires Inv(n)
    ensures var r, due := UpdateResponseRepeats(n, now, delay, stray), ResponseIsDue(n, now);
            r == n.(packet := r.packet, responses := r.responses, randomDelay := r.randomDelay, history := r.history) &&
            r.history == n.history.(air := r.history.air) &&
            Q.Shaped(n.responses) && r.randomDelay == (if due then delay else n.randomDelay) &&
            (due ==> n.responses.size > 0 && r.responses == Q.Repeat(n.responses, now)) &&
            (!due ==> r.responses == n.responses) &&
            r.history.air == n.history.air + if due then [Tx(Repeated, ResponseToRepeat(n, stray))] else []
  {
    hide Inv, Rebuilt, Q.Repeat, Q.Chosen, Genuine, Q.QueueInv;
    QueueSizes(n);
    QueueIsShaped(n.responses);
    RepeatsAreSound(n);
  }

  lemma QueueIsShaped(q: Q.Queue)
    requires Q.QueueInv(q)
    ensures Q.Shaped(q)
  {
  }

  /** An operation is under way, its request has been repeated less than four times, and the delay since
      it was last sent is over. */
  predicate RequestIsDue(n: Node, now: uint32) {
    OnMesh(n.state) && n.state != Idle && n.request.repeatCount < 4 && Elapsed(now, n.request.repeatTime) > n.randomDelay
  }

  lemma RequestPhase(n: Node, now: uint32, delay: uint16)
    requires Inv(n)
    ensures var r, due := UpdateRequestRepeats(n, now, delay), RequestIsDue(n, now);
            r == n.(request := r.request, randomDelay := r.randomDelay, history := r.history) &&
            r.history == n.history.(air := r.history.air) && r.randomDelay == (if due then delay else n.randomDelay) &&
            r.request == (if due then n.request.(repeatTime := now, repeatCount := n.request.repeatCount + 1) else n.request) &&
            r.history.air == n.history.air + if due then [Tx(Repeated, n.request.pending)] else []
  {
    hide Inv, Genuine;
    RepeatsAreSound(n);
  }

  // ---- the repeaters together ----

  /** The node after its relay phase, and after its response phase: only the delay and the packet buffer
      matter to the phases behind. */
  function AfterRelay(m: Node, env: Env): (r: Node)
    requires Inv(m)
    ensures Inv(r)
  {
    hide Inv, UpdateRepeats;
    UpdateRepeats(m, env.relayTime, env.relayDelay)
  }

  function AfterResponse(m: Node, env: Env): (r: Node)
    requires Inv(m)
    ensures Inv(r) && UpdateRepeaters(m, env) == UpdateRequestRepeats(r, env.requestTime, env.requestDelay)
  {
    hide Inv, UpdateRepeats, UpdateResponseRepeats, UpdateRequestRepeats;
    UpdateResponseRepeats(AfterRelay(m, env), env.responseTime, env.responseDelay, env.stray)
  }

  /** The delay as the response and request repeaters find it: each phase that sends draws a new one. */
  function ResponseDelay(m: Node, env: Env): uint16 {
    if RelayIsDue(m, env.relayTime) then env.relayDelay else m.randomDelay
  }

  function RequestDelay(m: Node, env: Env): uint16 {
    if RepeatsResponse(m, env) then env.responseDelay else ResponseDelay(m, env)
  }

  predicate RepeatsResponse(m: Node, env: Env) { ResponseIsDue(m.(randomDelay := ResponseDelay(m, env)), env.responseTime) }

  predicate RepeatsRequest(m: Node, env: Env) { RequestIsDue(m.(randomDelay := RequestDelay(m, env)), env.requestTime) }

  lemma SameResponse(m: Node, n: Node, stray: Register)
    requires Inv(m) && Inv(n) && m.responses.size > 0
    requires n == m.(relay := n.relay, randomDelay := n.randomDelay, history := n.history)
    ensures ResponseToRepeat(n, stray) == ResponseToRepeat(m, stray)
  {
    hide Inv, Q.Chosen, Filled;
    RepeatsAreSound(m);
    RepeatsAreSound(n);
  }

  /** What the repeaters add to the air: the oldest packet queued, if relaying is due; one response, if that is;
      one request, if that is. */
  lemma RepeatersAir(m: Node, env: Env)
    requires Inv(m)
    ensures R.Shaped(m.relay) && (RepeatsResponse(m, env) ==> m.responses.size > 0)
    ensures UpdateRepeaters(m, env).history.air == m.history.air +
              (if RelayIsDue(m, env.relayTime) then [Tx(Relayed, R.Outgoing(m.relay))] else []) +
              (if RepeatsResponse(m, env) then [Tx(Repeated, ResponseToRepeat(m, env.stray))] else []) +
              (if RepeatsRequest(m, env) then [Tx(Repeated, m.request.pending)] else [])
  {
    hide Inv, UpdateRepeats, UpdateResponseRepeats, UpdateRequestRepeats, R.SendOn, R.Outgoing, ResponseToRepeat, Q.Repeat;
    var n1, n2 := AfterRelay(m, env), AfterResponse(m, env);
    RelayPhase(m, env.relayTime, env.relayDelay);
    assert n1 == m.(relay := n1.relay, randomDelay := n1.randomDelay, history := n1.history);
    ResponsePhase(n1, env.responseTime, env.responseDelay, env.stray);
    if n1.responses.size > 0 { SameResponse(m, n1, env.stray); }
    RequestPhase(n2, env.requestTime, env.requestDelay);
  }

  /** The rings behind the repeaters. */
  function RingAfter(m: Node, env: Env): R.Ring
    requires Inv(m)
  {
    hide Inv;
    RingSizes(m);
    if RelayIsDue(m, env.relayTime) then R.SendOn(m.relay, env.relayTime) else m.relay
  }

  function QueueAfter(m: Node, env: Env): Q.Queue
    requires Inv(m)
  {
    hide Inv, Q.QueueInv;
    QueueSizes(m);
    QueueIsShaped(m.responses);
    if RepeatsResponse(m, env) then Q.Repeat(m.responses, env.responseTime) else m.responses
  }

  /** What the repeaters change in the node. */
  lemma RepeatersState(m: Node, env: Env)
    requires Inv(m)
    ensures var r := UpdateRepeaters(m, env);
            r == m.(packet := r.packet, relay := RingAfter(m, env), responses := QueueAfter(m, env), request := r.request,
                    randomDelay := r.randomDelay, history := m.history.(air := r.history.air)) &&
            r.request == (if RepeatsRequest(m, env)
                          then m.request.(repeatTime := env.requestTime, repeatCount := m.request.repeatCount + 1)
                          else m.request) &&
            r.randomDelay == if RepeatsRequest(m, env) then env.requestDelay else RequestDelay(m, env)
  {
    hide Inv, UpdateRepeats, UpdateResponseRepeats, UpdateRequestRepeats, R.SendOn, R.Outgoing, ResponseToRepeat, Q.Repeat;
    var n1, n2 := AfterRelay(m, env), AfterResponse(m, env);
    RelayPhase(m, env.relayTime, env.relayDelay);
    RelayKeepsHistory(m, env.relayTime, env.relayDelay);
    ResponsePhase(n1, env.responseTime, env.responseDelay, env.stray);
    RequestPhase(n2, env.requestTime, env.requestDelay);
  }

  lemma RelayKeepsHistory(n: Node, now: uint32, delay: uint16)
    requires Inv(n)
    ensures var r := UpdateRepeats(n, now, delay);
            r.history == n.history.(air := r.history.air)
  {
    hide Inv, Genuine, R.SendOn, R.Outgoing;
    if n.relay.size > 0 { OutgoingIsSound(n); }
  }

  /** What one update relays, and what it repeats. */
  lemma UpdateSends(n: Node, env: Env)
    requires Inv(n)
    ensures var m, r := BeforeRepeating(n, env), Update(n, env);
            R.Shaped(m.relay) && (RepeatsResponse(m, env) ==> m.responses.size > 0) &&
            PacketsOf(r.history.air, Relays) == PacketsOf(n.history.air, Relays) +
              (if RelayIsDue(m, env.relayTime) then [R.Outgoing(m.relay)] else []) &&
            PacketsOf(r.history.air, Repeats) == PacketsOf(n.history.air, Repeats) +
              (if RepeatsResponse(m, env) then [ResponseToRepeat(m, env.stray)] else []) +
              (if RepeatsRequest(m, env) then [m.request.pending] else [])
  {
    hide Inv, Update, UpdateRepeaters, BeforeRepeating, R.Outgoing, ResponseToRepeat, RelayIsDue, RepeatsResponse, RepeatsRequest,
         PacketsOf;
    var m := BeforeRepeating(n, env);
    OwnBeforeRepeating(n, env, Relays);
    OwnBeforeRepeating(n, env, Repeats);
    RepeatersSorted(m, env);
  }

  lemma RepeatersSorted(m: Node, env: Env)
    requires Inv(m)
    ensures R.Shaped(m.relay) && (RepeatsResponse(m, env) ==> m.responses.size > 0)
    ensures var air := UpdateRepeaters(m, env).history.air;
            PacketsOf(air, Relays) == PacketsOf(m.history.air, Relays) +
              (if RelayIsDue(m, env.relayTime) then [R.Outgoing(m.relay)] else []) &&
            PacketsOf(air, Repeats) == PacketsOf(m.history.air, Repeats) +
              (if RepeatsResponse(m, env) then [ResponseToRepeat(m, env.stray)] else []) +
              (if RepeatsRequest(m, env) then [m.request.pending] else [])
  {
    hide Inv, UpdateRepeaters, R.Outgoing, ResponseToRepeat, RelayIsDue, RepeatsResponse, RepeatsRequest, PacketsOf;
    RepeatersAir(m, env);
    var response := if RepeatsResponse(m, env) then ResponseToRepeat(m, env.stray) else m.packet;
    ThreeMore(m.history.air, RelayIsDue(m, env.relayTime), R.Outgoing(m.relay), RepeatsResponse(m, env), response,
              RepeatsRequest(m, env), m.request.pending);
  }

  /** At most one packet of each repeater. */
  lemma ThreeMore(air: seq<Tx>, x: bool, p: Packet, y: bool, q: Packet, z: bool, r: Packet)
    ensures var more := air + (if x then [Tx(Relayed, p)] else []) + (if y then [Tx(Repeated, q)] else []) +
                        (if z then [Tx(Repeated, r)] else []);
            PacketsOf(more, Relays) == PacketsOf(air, Relays) + (if x then [p] else []) &&
            PacketsOf(more, Repeats) == PacketsOf(air, Repeats) + (if y then [q] else []) + if z then [r] else []
  {
    hide PacketsOf;
    var b := air + if x then [Tx(Relayed, p)] else [];
    var c := b + if y then [Tx(Repeated, q)] else [];
    AtMostOne(air, x, Relayed, p);
    AtMostOne(b, y, Repeated, q);
    AtMostOne(c, z, Repeated, r);
  }

  lemma AtMostOne(air: seq<Tx>, sends: bool, origin: Origin, p: Packet)
    requires origin != Originated
    ensures var more := air + if sends then [Tx(origin, p)] else [];
            PacketsOf(more, Relays) == PacketsOf(air, Relays) + (if sends && origin == Relayed then [p] else []) &&
            PacketsOf(more, Repeats) == PacketsOf(air, Repeats) + if sends && origin == Repeated then [p] else []
  {
    if sends {
      OneMore(air, Tx(origin, p), Relays);
      OneMore(air, Tx(origin, p), Repeats);
    } else {
      assert air + [] == air;
    }
  }
}
