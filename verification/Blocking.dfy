/** Who is told how an operation ended: the callback given with the call, and, for a call made without one, the call
    itself, which blocks until then and returns the status. */
module Blocking {
  import opened Bytes
  import opened Packets
  import opened Registers
  import opened Model
  import opened Operations
  import opened Joining
  import F = Filter
  import R = Relay
  import Q = Responses
  import T = Traffic

  /** What the loop of a blocking call waits on: nothing while the operation goes on, and behind it the status it
      was reported with. */
  ghost predicate Reports(n: Node) {
    n.client.callback == BlockingFinished && n.state != NotJoined ==>
      if Awaiting(n.state) then n.client.blockingStatus == NoStatus
      else |n.history.completions| > 0 && n.client.blockingStatus == n.history.completions[|n.history.completions| - 1] &&
           n.client.blockingStatus != NoStatus
  }

  /** A step that ends the operation with one report to its callback, or leaves it. */
  ghost predicate Tells(n: Node, r: Node) {
    r.client.callback == n.client.callback &&
    if r.history.completions == n.history.completions
    then r.state == n.state && r.client.blockingStatus == n.client.blockingStatus
    else n.state != NotJoined && n.state != Idle && r.state == Idle && |r.history.completions| == |n.history.completions| + 1 &&
         var status := r.history.completions[|n.history.completions|];
         n.history.completions <= r.history.completions && status != NoStatus &&
         (n.client.callback == BlockingFinished ==> r.client.blockingStatus == status)
  }

  lemma TellingReports(n: Node, r: Node)
    requires Reports(n) && Tells(n, r)
    ensures Reports(r)
  {
  }

  lemma TellsChains(a: Node, b: Node, c: Node)
    requires Tells(a, b) && Tells(b, c)
    ensures Tells(a, c)
  {
  }

  // ---- the handlers ----

  lemma PresenceTells(n: Node, now: uint32)
    requires Inv(n)
    ensures Tells(n, HandlePong(HandlePing(n, now)))
  {
    hide Inv, F.Seen, F.Mark;
  }

  lemma NumbersTell(n: Node, now: uint32)
    requires Inv(n)
    ensures Tells(n, HandleNumRegisters(HandleGetNumRegisters(n, now)))
  {
    hide Inv, F.Seen, F.Mark;
  }

  lemma NamesTell(n: Node, strayByte: byte, now: uint32)
    requires Inv(n)
    ensures Tells(n, HandleRegisterName(HandleGetRegisterName(n, now), strayByte))
  {
    hide Inv, F.Seen, F.Mark, NameReply, PacketToRegister, RegisterIndex;
  }

  lemma ValuesTell(n: Node, getReply: Register, now: uint32)
    requires Inv(n)
    ensures Tells(n, HandleRegisterValue(HandleGetRegister(n, getReply, now)))
  {
    hide Inv, F.Seen, F.Mark, RegisterToPacket, FindRegister, NameMatches, PacketToRegister;
  }

  lemma SettingTells(n: Node, reply: SetReply, now: uint32)
    requires Inv(n)
    ensures Tells(n, HandleSetRegister(n, reply, now))
  {
    hide Inv, F.Seen, F.Mark, SetRequested, SetAck, FindRegister;
  }

  lemma OutcomesTell(n: Node, behind: Behind)
    requires Inv(n)
    ensures Tells(n, HandleBroadcast(HandleSetRegisterAck(n), behind))
  {
    hide Inv, F.Seen, F.Mark, NameAndValueMatch, PacketToRegister, StrNCpy, Patch;
  }

  lemma DirectoryTells(n: Node, env: Env)
    requires Inv(n)
    ensures Tells(n, ServeDirectory(n, env))
  {
    hide Inv, Tells, HandlePing, HandlePong, HandleGetNumRegisters, HandleNumRegisters, HandleGetRegisterName, HandleRegisterName;
    PresenceTells(n, env.rxTime);
    var n1 := HandlePong(HandlePing(n, env.rxTime));
    NumbersTell(n1, env.rxTime);
    var n2 := HandleNumRegisters(HandleGetNumRegisters(n1, env.rxTime));
    NamesTell(n2, env.strayByte, env.rxTime);
    TellsChains(n, n1, n2);
    TellsChains(n, n2, ServeDirectory(n, env));
  }

  lemma RegistersTell(n: Node, env: Env)
    requires Inv(n)
    ensures Tells(n, ServeRegisters(n, env))
  {
    hide Inv, Tells, HandleGetRegister, HandleRegisterValue, HandleSetRegister, HandleSetRegisterAck, HandleBroadcast;
    ValuesTell(n, env.getReply, env.rxTime);
    var n1 := HandleRegisterValue(HandleGetRegister(n, env.getReply, env.rxTime));
    SettingTells(n1, env.setReply, env.rxTime);
    var n2 := HandleSetRegister(n1, env.setReply, env.rxTime);
    OutcomesTell(n2, env.behind);
    TellsChains(n, n1, n2);
    TellsChains(n, n2, ServeRegisters(n, env));
  }

  lemma ServingTells(n: Node, env: Env)
    requires Inv(n)
    ensures Tells(n, Serve(n, env))
  {
    hide Inv, Tells, ServeDirectory, ServeRegisters;
    DirectoryTells(n, env);
    RegistersTell(ServeDirectory(n, env), env);
    TellsChains(n, ServeDirectory(n, env), Serve(n, env));
  }

  // ---- the phases ----

  /** A node moved on to another id goes on joining for the same client. */
  ghost predicate Rejoins(n: Node, r: Node) {
    n.state == r.state == Joining && r.client.callback == n.client.callback && r.client.blockingStatus == NoStatus &&
    r.history.completions == n.history.completions
  }

  lemma JoiningRejoins(n: Node, id: byte, now: uint32)
    requires Inv(n) && n.state == Joining
    ensures Rejoins(n, Join(n, id, n.client.callback, now))
  {
    hide F.CacheInv, R.RingInv, Q.QueueInv, Genuine, SendRequest, Calm;
  }

  lemma RegardingTells(n: Node, now: uint32)
    requires Inv(n) && Genuine(Id(n), n.packet)
    ensures Tells(n, Regard(n, now)) || Rejoins(n, Regard(n, now))
  {
    hide Inv, F.Hear, Genuine, HandleConflictName, HandleDeferredJoining, CacheForRepeat, Continues;
    var n1 := ExpireHandled(n);
    ConflictTells(n1, now);
    DeferringTells(HandleConflictName(n1, now), now);
  }

  lemma ConflictTells(n: Node, now: uint32)
    requires Inv(n) && Genuine(Id(n), n.packet)
    ensures Tells(n, HandleConflictName(n, now)) || Rejoins(n, HandleConflictName(n, now))
  {
    hide Inv, F.Mark, Join, Genuine, Continues, Calm;
    if ConflictForUs(n) && n.state == Joining { JoiningRejoins(MarkHandled(n), NextId(n.nodeId), now); }
  }

  lemma DeferringTells(n: Node, now: uint32)
    requires Inv(n) && Genuine(Id(n), n.packet)
    ensures Tells(n, HandleDeferredJoining(n, now)) || Rejoins(n, HandleDeferredJoining(n, now))
  {
    hide Inv, Join, Genuine, Continues;
    if n.state == Joining && MustDefer(n) { JoiningRejoins(n, NextId(n.nodeId), now); }
  }

  lemma RejoiningReports(n: Node, r: Node)
    requires Reports(n) && (Tells(n, r) || Rejoins(n, r))
    ensures Reports(r) && r.client.callback == n.client.callback
  {
  }

  lemma ReceivingReports(n: Node, env: Env)
    requires Inv(n) && Reports(n)
    ensures Reports(HandleRx(n, env)) && HandleRx(n, env).client.callback == n.client.callback
  {
    hide Inv, Receive, Regard, Serve, SendConflict, Continues, Tells, Rejoins, Reports;
    match env.rx
    case NoData =>
    case Corrupt(bytes) => SameReports(n, n.(packet := bytes));
    case Received(p) =>
      var n1 := Receive(n, p, env.rxTime);
      SameReports(n, n1);
      if SeesDuplicateId(n1) {
        DefendingReports(n1, env.rxTime);
      } else {
        var n2 := Regard(n1, env.rxTime);
        RegardingTells(n1, env.rxTime);
        RejoiningReports(n1, n2);
        ServingTells(n2, env);
        RejoiningReports(n2, Serve(n2, env));
      }
  }

  lemma SameReports(n: Node, r: Node)
    requires Reports(n) && r.state == n.state && r.client == n.client && r.history.completions == n.history.completions
    ensures Reports(r)
  {
  }

  lemma DefendingReports(n: Node, now: uint32)
    requires Inv(n) && OnMesh(n.state) && Reports(n)
    ensures Reports(SendConflict(n, now)) && SendConflict(n, now).client.callback == n.client.callback
  {
    hide Inv;
  }

  lemma TimersReport(n: Node, env: Env)
    requires Inv(n) && Reports(n)
    ensures Reports(UpdateTimers(n, env)) && UpdateTimers(n, env).client.callback == n.client.callback
  {
    hide Inv, Tells, UpdateJoin, Continues, UpdatePing, CheckTimeouts, Reports;
    var j := UpdateJoin(n, env.joinTime);
    JoinTimerTells(n, env.joinTime);
    TellingReports(n, j);
    TimeoutsTell(j, env);
    TellingReports(j, UpdateTimers(n, env));
    TellsCallback(n, j);
    TellsCallback(j, UpdateTimers(n, env));
  }

  lemma TellsCallback(n: Node, r: Node)
    requires Tells(n, r)
    ensures r.client.callback == n.client.callback
  {
  }

  lemma JoinTimerTells(n: Node, now: uint32)
    requires Inv(n)
    ensures Tells(n, UpdateJoin(n, now))
  {
    hide Inv, Continues;
  }

  lemma TimeoutsTell(n: Node, env: Env)
    requires Inv(n)
    ensures Tells(n, CheckTimeouts(UpdatePing(n, env.pingTime), env.timeoutTime))
  {
    hide Inv;
  }

  lemma UpdateReports(n: Node, env: Env)
    requires Inv(n) && Reports(n)
    ensures Reports(Update(n, env)) && Update(n, env).client.callback == n.client.callback
  {
    hide Inv, HandleRx, UpdateTimers, UpdateRepeaters, Reports, T.RingAfter, T.QueueAfter, T.RepeatsRequest;
    ReceivingReports(n, env);
    var m := UpdateTimers(HandleRx(n, env), env);
    TimersReport(HandleRx(n, env), env);
    T.RepeatersState(m, env);
    SameReports(m, Update(n, env));
  }

  // ---- calls and runs ----

  /** The action starts an operation: it joins, or asks something of an idle node. */
  predicate Starts(n: Node, a: Action) {
    a.DoJoin? ||
    (n.state == Idle && (a.DoPing? || a.DoGetNumRegisters? || a.DoGetRegisterName? || a.DoGetRegister? || a.DoSetRegister?))
  }

  /** The callback that will be told: the one given, or, without one, the library's own for blocking calls. */
  function ToTell(a: Action): Callback
    requires a.DoJoin? || a.DoPing? || a.DoGetNumRegisters? || a.DoGetRegisterName? || a.DoGetRegister? || a.DoSetRegister?
  {
    if a.user == NullCallback then BlockingFinished else a.user
  }

  lemma StartingReports(n: Node, a: Action)
    requires Inv(n) && Allowed(n, a) && Starts(n, a)
    ensures var r := Act(n, a);
            Awaiting(r.state) && r.client.callback == ToTell(a) && r.client.blockingStatus == NoStatus &&
            r.history.completions == n.history.completions
  {
    hide Inv, RegisterToPacket, Encodable, SendRequest, Genuine, Ask, Header, SendsRequest, Calm;
  }

  lemma OtherCallReports(n: Node, a: Action)
    requires Inv(n) && Allowed(n, a) && !Starts(n, a) && !a.DoUpdate?
    ensures var r := Act(n, a);
            r.state == n.state && r.client.callback == n.client.callback && r.client.blockingStatus == n.client.blockingStatus &&
            r.history.completions == n.history.completions
  {
    hide Inv, RegisterToPacket, Encodable, SendResponse, Genuine, Ping, GetNumRegisters, GetRegisterName, GetRegister,
         SetRegister, StartJoin, Called;
  }

  /** Each action: an operation is started for the callback given with it, and no other action gives another; and
      what a blocking call waits on is kept up to date. */
  lemma ActReports(n: Node, a: Action)
    requires Inv(n) && Allowed(n, a) && Reports(n)
    ensures Reports(Act(n, a))
    ensures Act(n, a).client.callback == if Starts(n, a) then ToTell(a) else n.client.callback
  {
    hide Inv, Update;
    if a.DoUpdate? {
      UpdateReports(Begin(n), a.env);
    } else if Starts(n, a) {
      StartingReports(n, a);
    } else {
      OtherCallReports(n, a);
    }
  }

  /** Over every run of a node, from its start. */
  lemma {:induction false} RunReports(n: Node, actions: seq<Action>)
    requires Inv(n) && AllowedRun(n, actions) && Reports(n)
    ensures Reports(Run(n, actions))
    decreases |actions|
  {
    hide Inv, Act, Reports;
    if actions != [] {
      ActReports(n, actions[0]);
      RunReports(Act(n, actions[0]), actions[1..]);
    }
  }

  predicate OnlyUpdates(actions: seq<Action>) { forall a | a in actions :: a.DoUpdate? }

  lemma UpdateEndsAtMostOne(n: Node, env: Env)
    requires Inv(n) && n.state != NotJoined
    ensures var r := Update(n, env);
            r.state != NotJoined && n.history.completions <= r.history.completions &&
            |r.history.completions| + (if Awaiting(r.state) then 1 else 0) ==
              |n.history.completions| + if Awaiting(n.state) then 1 else 0
  {
    hide Inv, Update;
  }

  lemma {:induction false} OneReport(n: Node, actions: seq<Action>)
    requires Inv(n) && AllowedRun(n, actions) && OnlyUpdates(actions) && n.state != NotJoined
    ensures var r := Run(n, actions);
            r.state != NotJoined && n.history.completions <= r.history.completions &&
            |r.history.completions| + (if Awaiting(r.state) then 1 else 0) ==
              |n.history.completions| + if Awaiting(n.state) then 1 else 0
    decreases |actions|
  {
    hide Inv, Act;
    if actions != [] {
      assert actions[0] in actions;
      UpdateIsAct(n, actions[0]);
      OneReport(Act(n, actions[0]), actions[1..]);
    }
  }

  lemma UpdateIsAct(n: Node, a: Action)
    requires Inv(n) && a.DoUpdate? && n.state != NotJoined
    ensures var r := Act(n, a);
            r.state != NotJoined && n.history.completions <= r.history.completions &&
            |r.history.completions| + (if Awaiting(r.state) then 1 else 0) ==
              |n.history.completions| + if Awaiting(n.state) then 1 else 0
  {
    hide Inv, Update;
    UpdateEndsAtMostOne(Begin(n), a.env);
  }

  lemma {:induction false} UpdatesKeepCallback(n: Node, actions: seq<Action>)
    requires Inv(n) && AllowedRun(n, actions) && OnlyUpdates(actions) && Reports(n)
    ensures Run(n, actions).client.callback == n.client.callback
    decreases |actions|
  {
    hide Inv, Act, Reports;
    if actions != [] {
      assert actions[0] in actions;
      ActReports(n, actions[0]);
      UpdatesKeepCallback(Act(n, actions[0]), actions[1..]);
    }
  }

  /** A call without a callback blocks by updating: at each of these updates the status it waits on is still
      missing if and only if the operation has not been reported, and else it is the status of that report. */
  lemma BlockingCallReturns(n: Node, a: Action, updates: seq<Action>)
    requires Inv(n) && Allowed(n, a) && Starts(n, a) && a.user == NullCallback
    requires AllowedRun(Act(n, a), updates) && OnlyUpdates(updates)
    ensures var r, before := Run(Act(n, a), updates), |n.history.completions|;
            before <= |r.history.completions| <= before + 1 &&
            (r.client.blockingStatus == NoStatus <==> |r.history.completions| == before) &&
            (r.client.blockingStatus != NoStatus ==> r.client.blockingStatus == r.history.completions[before])
  {
    hide Inv, Act, Run, AllowedRun, OnlyUpdates;
    var started := Act(n, a);
    StartingReports(n, a);
    RunReports(started, updates);
    UpdatesKeepCallback(started, updates);
    OneReport(started, updates);
  }
}
