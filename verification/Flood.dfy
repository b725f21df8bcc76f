/** Flooding ends: relaying multiplies what is sent by no more than a constant, so once nothing new is
    sent only finitely many packets are still delivered and relayed. */
module Flood {
  import opened Bytes
  import opened Packets
  import opened Model
  import opened Operations
  import F = Filter
  import Q = Responses
  import R = Relay

  /** A copy of a sent packet, on its way to one node. */
  datatype Copy = Copy(packet: Packet, to: nat)

  datatype FloodNet = FloodNet(nodes: seq<Node>, flight: seq<Copy>)

  // ---- what a copy may still cause ----

  /** `k * c`, by repeated addition. */
  function Times(k: nat, c: nat): nat { if k == 0 then 0 else c + Times(k - 1, c) }

  lemma {:induction false} TimesIsMonotone(k: nat, c: nat, d: nat)
    requires c <= d
    ensures Times(k, c) <= Times(k, d)
  {
    if k > 0 { TimesIsMonotone(k - 1, c, d); }
  }

  lemma {:induction false} TimesIsProduct(k: nat, c: nat)
    ensures Times(k, c) == k * c
  {
    if k > 0 {
      TimesIsProduct(k - 1, c);
      assert k * c == (k - 1) * c + c;
    }
  }

  /** The deliveries and relays that a copy with this hop count may lead to in a network of `n` nodes,
      its own delivery included: it may be queued. */
  function CopyCost(n: nat, hop: nat): (c: nat)
    ensures c >= 1
    decreases MAX_HOP_COUNT - hop, 1
  {
    1 + QueuedCost(n, hop)
  }

  /** The same for a queued packet: it is relayed to all other nodes, one hop further. Nothing that has
      made all its hops is queued. */
  function QueuedCost(n: nat, hop: nat): nat
    decreases MAX_HOP_COUNT - hop, 0
  {
    if hop >= MAX_HOP_COUNT || n == 0 then 0 else 1 + Times(n - 1, CopyCost(n, hop + 1))
  }

  /** What one newly sent packet may cause. */
  function SendCost(n: nat): nat {
    hide CopyCost;
    if n == 0 then 0 else Times(n - 1, CopyCost(n, 0))
  }

  lemma {:induction false} FewerHopsCostMore(n: nat, hop: nat, more: nat)
    requires hop <= more
    ensures CopyCost(n, more) <= CopyCost(n, hop)
    decreases MAX_HOP_COUNT - hop
  {
    if more < MAX_HOP_COUNT && n > 0 {
      FewerHopsCostMore(n, hop + 1, more + 1);
      TimesIsMonotone(n - 1, CopyCost(n, more + 1), CopyCost(n, hop + 1));
    }
  }

  function FlightCost(n: nat, flight: seq<Copy>): nat {
    if flight == [] then 0 else CopyCost(n, Hop(flight[0].packet)) + FlightCost(n, flight[1..])
  }

  lemma {:induction false} FlightCostAdds(n: nat, a: seq<Copy>, b: seq<Copy>)
    ensures FlightCost(n, a + b) == FlightCost(n, a) + FlightCost(n, b)
  {
    if a == [] {
      assert a + b == b;
    } else {
      assert (a + b)[1..] == a[1..] + b;
      FlightCostAdds(n, a[1..], b);
    }
  }

  function Without(flight: seq<Copy>, k: nat): seq<Copy>
    requires k < |flight|
  {
    flight[..k] + flight[k + 1..]
  }

  lemma WithoutCosts(n: nat, flight: seq<Copy>, k: nat)
    requires k < |flight|
    ensures FlightCost(n, Without(flight, k)) == FlightCost(n, flight) - CopyCost(n, Hop(flight[k].packet))
  {
    FlightCostAdds(n, flight[..k], flight[k + 1..]);
    FlightCostAdds(n, flight[..k], flight[k..]);
    assert flight[..k] + flight[k..] == flight;
    assert flight[k..][1..] == flight[k + 1..];
  }

  /** One copy of `p` for each of the first `n` nodes but node `i`. */
  function Copies(p: Packet, i: nat, n: nat): seq<Copy> {
    if n == 0 then [] else Copies(p, i, n - 1) + if n - 1 == i then [] else [Copy(p, n - 1)]
  }

  lemma {:induction false} CopiesCost(p: Packet, i: nat, n: nat, all: nat)
    requires n <= all
    ensures FlightCost(all, Copies(p, i, n)) == Times(if i < n then n - 1 else n, CopyCost(all, Hop(p)))
  {
    hide CopyCost;
    if n > 0 {
      CopiesCost(p, i, n - 1, all);
      FlightCostAdds(all, Copies(p, i, n - 1), if n - 1 == i then [] else [Copy(p, n - 1)]);
    }
  }

  /** Everything sent in one step, to everyone else. */
  function Sent(air: seq<Tx>, i: nat, n: nat): seq<Copy> {
    if air == [] then [] else Copies(air[0].packet, i, n) + Sent(air[1..], i, n)
  }

  lemma {:induction false} SentAdds(a: seq<Tx>, b: seq<Tx>, i: nat, n: nat)
    ensures FlightCost(n, Sent(a + b, i, n)) == FlightCost(n, Sent(a, i, n)) + FlightCost(n, Sent(b, i, n))
  {
    if a == [] {
      assert a + b == b;
    } else {
      assert (a + b)[1..] == a[1..] + b;
      SentAdds(a[1..], b, i, n);
      FlightCostAdds(n, Copies(a[0].packet, i, n), Sent(a[1..], i, n));
      FlightCostAdds(n, Copies(a[0].packet, i, n), Sent(a[1..] + b, i, n));
    }
  }

  lemma {:induction false} SentCost(air: seq<Tx>, i: nat, n: nat)
    requires i < n
    ensures FlightCost(n, Sent(air, i, n)) <= Times(|air|, SendCost(n))
  {
    hide CopyCost;
    if air != [] {
      SentCost(air[1..], i, n);
      FlightCostAdds(n, Copies(air[0].packet, i, n), Sent(air[1..], i, n));
      CopiesCost(air[0].packet, i, n, n);
      FewerHopsCostMore(n, 0, Hop(air[0].packet));
      TimesIsMonotone(n - 1, CopyCost(n, Hop(air[0].packet)), CopyCost(n, 0));
    }
  }

  // ---- the relay ring ----

  function RingCost(n: nat, r: R.Ring): nat
    requires R.Shaped(r)
  {
    (if r.size > 0 then QueuedCost(n, Hop(r.slots[r.start])) else 0) +
    (if r.size > 1 then QueuedCost(n, Hop(r.slots[(r.start + 1) % R.RELAY_SLOTS])) else 0)
  }

  /** Queuing a received packet costs less than its delivery paid; one that has made all its hops is not
      queued. */
  lemma OfferCosts(n: nat, r: R.Ring, p: Packet)
    requires R.RingInv(r)
    ensures R.Shaped(R.Offer(r, p)) && RingCost(n, R.Offer(r, p)) + 1 <= RingCost(n, r) + CopyCost(n, Hop(p))
    ensures Hop(p) >= MAX_HOP_COUNT ==> R.Offer(r, p) == r
  {
    assert r.end == (r.start + r.size) % R.RELAY_SLOTS by { EndFollows(r); }
  }

  lemma EndFollows(r: R.Ring)
    requires R.RingInv(r)
    ensures r.end == (r.start + r.size) % R.RELAY_SLOTS
  {
    var n := |r.relayed|;
    assert (n + r.size) % 2 == (n % 2 + r.size) % 2;
  }

  /** Relaying pays for itself and for all the copies it makes; it adds exactly one hop, and no packet
      makes more hops than allowed. */
  lemma SendOnCosts(n: nat, r: R.Ring, now: uint32)
    requires R.RingInv(r) && r.size > 0 && n > 0
    ensures R.Shaped(R.SendOn(r, now))
    ensures RingCost(n, R.SendOn(r, now)) + 1 + Times(n - 1, CopyCost(n, Hop(R.Outgoing(r)))) == RingCost(n, r)
    ensures Hop(R.Outgoing(r)) == Hop(r.slots[r.start]) + 1 <= MAX_HOP_COUNT
  {
    R.SendOnKeepsInv(r, now);
    assert r.slots[|r.relayed| % R.RELAY_SLOTS] == r.accepted[|r.relayed|];
  }

  // ---- one node ----

  /** The rings differ in the relay timer only. */
  predicate SameQueue(a: R.Ring, b: R.Ring) { a == R.Stamp(b, a.lastSent) }

  /** The relay ring behind the receive phase: the received packet is queued in it, or not. */
  lemma ReceivingQueues(n: Node, env: Env)
    requires Inv(n)
    ensures var q := HandleRx(n, env).relay;
            SameQueue(q, n.relay) || (env.rx.Received? && SameQueue(q, R.Offer(n.relay, env.rx.packet)))
  {
    hide Inv, Receive, SendConflict, Serve, Reconsider;
    if env.rx.Received? {
      var n1 := Receive(n, env.rx.packet, env.rxTime);
      if !SeesDuplicateId(n1) { RegardQueues(n1, env.rxTime); }
    }
  }

  lemma RegardQueues(n: Node, now: uint32)
    requires Inv(n) && Genuine(Id(n), n.packet)
    ensures Regard(n, now).relay == n.relay || Regard(n, now).relay == R.Offer(n.relay, n.packet)
  {
    hide Inv, ExpireHandled, HandleConflictName, HandleDeferredJoining, R.Offer;
    if OnMesh(n.state) {
      var n1 := ExpireHandled(n);
      assert n1.packet == n.packet && n1.state == n.state;
      assert HandleConflictName(n1, now) == n1 && HandleDeferredJoining(n1, now) == n1;
    }
  }

  lemma TimersKeepRelay(n: Node, env: Env)
    requires Inv(n)
    ensures UpdateTimers(n, env).relay == n.relay
  {
    hide Inv, UpdateJoin, UpdatePing, CheckTimeouts;
  }

  /** What an action relays: the packets its ring has recorded as sent on. */
  function Relayings(n: Node, a: Action): nat
    requires Inv(n) && Allowed(n, a)
  {
    hide Inv, Act;
    var r := Act(n, a);
    if r.relay.relayed == n.relay.relayed then 0 else 1
  }

  lemma {:induction false} TimesAdds(j: nat, k: nat, c: nat)
    ensures Times(j + k, c) == Times(j, c) + Times(k, c)
  {
    if j > 0 { TimesAdds(j - 1, k, c); }
  }

  /** What is sent in one step with one packet among it singled out. */
  lemma SentWithRelay(before: seq<Tx>, tx: Tx, air: seq<Tx>, i: nat, n: nat)
    requires i < n && before + [tx] <= air
    ensures FlightCost(n, Sent(air, i, n)) <=
            Times(|air| - 1, SendCost(n)) + Times(n - 1, CopyCost(n, Hop(tx.packet)))
  {
    hide CopyCost, SendCost, Copies, Times, Sent, FlightCost;
    var after := air[|before| + 1..];
    assert air == before + ([tx] + after);
    SentAdds(before, [tx] + after, i, n);
    SentAdds([tx], after, i, n);
    SentOne(tx, i, n);
    SentCost(before, i, n);
    SentCost(after, i, n);
    TimesAdds(|before|, |after|, SendCost(n));
  }

  lemma SentOne(tx: Tx, i: nat, n: nat)
    requires i < n
    ensures FlightCost(n, Sent([tx], i, n)) == Times(n - 1, CopyCost(n, Hop(tx.packet)))
  {
    hide CopyCost, SendCost, Copies, Times, FlightCost;
    assert Sent([tx], i, n) == Copies(tx.packet, i, n) + Sent([tx][1..], i, n) == Copies(tx.packet, i, n);
    CopiesCost(tx.packet, i, n, n);
  }

  /** The repeaters' phase relays one packet of the ring or none. */
  ghost predicate RelaysFrom(n: Node, r: Node, now: uint32) {
    R.Shaped(n.relay) && n.relay.size > 0 && r.relay == R.SendOn(n.relay, now) &&
    n.history.air + [Tx(Relayed, R.Outgoing(n.relay))] <= r.history.air
  }

  lemma RepeatersRelay(n: Node, env: Env)
    requires Inv(n)
    ensures var r := UpdateRepeaters(n, env);
            r.relay == n.relay || RelaysFrom(n, r, env.relayTime)
  {
    hide F.CacheInv, Q.QueueInv, R.Fifo, R.Remembers, R.NoEcho, UpdateRepeats, UpdateResponseRepeats,
         UpdateRequestRepeats;
  }

  /** A packet received while updating. */
  predicate Receives(a: Action) { a.DoUpdate? && a.env.rx.Received? }

  /** Everything an action of node `i` relays, sends and queues is paid for by the packet it receives,
      by its queue, and by what it originates. */
  ghost predicate Balances(n: Node, a: Action, r: Node, relays: nat, i: nat, size: nat) {
    R.Shaped(n.relay) && R.Shaped(r.relay) && relays <= |r.history.air| &&
    RingCost(size, r.relay) + FlightCost(size, Sent(r.history.air, i, size)) + relays + (if Receives(a) then 1 else 0)
    <= RingCost(size, n.relay) + (if Receives(a) then CopyCost(size, Hop(a.env.rx.packet)) else 0) +
       Times(|r.history.air| - relays, SendCost(size))
  }

  lemma RepeatersBalance(n: Node, env: Env, i: nat, size: nat)
    requires Inv(n) && i < size
    ensures var r := UpdateRepeaters(n, env);
            var relays := if r.relay.relayed == n.relay.relayed then 0 else 1;
            R.Shaped(n.relay) && R.Shaped(r.relay) && relays <= |r.history.air| &&
            RingCost(size, r.relay) + FlightCost(size, Sent(r.history.air, i, size)) + relays
            <= RingCost(size, n.relay) + Times(|r.history.air| - relays, SendCost(size))
  {
    hide F.CacheInv, Q.QueueInv, R.Fifo, R.Remembers, R.NoEcho, UpdateRepeaters, CopyCost, SendCost, Times, Sent,
         FlightCost, RingCost, R.SendOn;
    var r := UpdateRepeaters(n, env);
    RepeatersRelay(n, env);
    if r.relay == n.relay {
      SentCost(r.history.air, i, size);
    } else {
      SendOnCosts(size, n.relay, env.relayTime);
      SentWithRelay(n.history.air, Tx(Relayed, R.Outgoing(n.relay)), r.history.air, i, size);
      assert |R.SendOn(n.relay, env.relayTime).relayed| == |n.relay.relayed| + 1 by { SendOnRecords(n.relay, env.relayTime); }
    }
  }

  lemma SendOnRecords(r: R.Ring, now: uint32)
    requires R.Shaped(r) && r.size > 0
    ensures R.SendOn(r, now).relayed == r.relayed + [R.Outgoing(r)]
  {
  }

  lemma UpdateBalances(n: Node, a: Action, i: nat, size: nat)
    requires Inv(n) && a.DoUpdate? && i < size
    ensures Balances(n, a, Act(n, a), Relayings(n, a), i, size)
  {
    hide Inv, HandleRx, UpdateTimers, UpdateRepeaters, CopyCost, SendCost, Times, Sent, FlightCost, RingCost,
         R.RingInv, R.Offer, R.Shaped;
    var b := Begin(n);
    var m := HandleRx(b, a.env);
    var t := UpdateTimers(m, a.env);
    ReceivingQueues(b, a.env);
    TimersKeepRelay(m, a.env);
    RepeatersBalance(t, a.env, i, size);
    RingIsSound(b);
    ReceivingCosts(b, a, size);
  }

  lemma RingIsSound(n: Node)
    requires Inv(n)
    ensures R.RingInv(n.relay) && R.Shaped(n.relay)
  {
  }

  /** Receiving a packet adds less to the queue than its delivery pays. */
  lemma ReceivingCosts(n: Node, a: Action, size: nat)
    requires Inv(n) && a.DoUpdate?
    ensures var q := HandleRx(n, a.env).relay;
            R.Shaped(n.relay) && R.Shaped(q) && q.relayed == n.relay.relayed &&
            RingCost(size, q) + (if Receives(a) then 1 else 0)
            <= RingCost(size, n.relay) + if Receives(a) then CopyCost(size, Hop(a.env.rx.packet)) else 0
  {
    hide Inv, HandleRx, CopyCost, R.RingInv, R.Offer;
    ReceivingQueues(n, a.env);
    RingIsSound(n);
    if Receives(a) { OfferCosts(size, n.relay, a.env.rx.packet); OfferRelaysNothing(n.relay, a.env.rx.packet); }
  }

  lemma OfferRelaysNothing(r: R.Ring, p: Packet)
    requires R.Shaped(r)
    ensures R.Offer(r, p).relayed == r.relayed
  {
  }

  lemma ActBalances(n: Node, a: Action, i: nat, size: nat)
    requires Inv(n) && Allowed(n, a) && i < size
    ensures Balances(n, a, Act(n, a), Relayings(n, a), i, size)
  {
    hide Inv, CopyCost, SendCost, Times, Sent, FlightCost, RingCost, R.RingInv, R.Shaped;
    if a.DoUpdate? {
      UpdateBalances(n, a, i, size);
    } else {
      CallKeepsRelay(n, a);
      RingIsSound(n);
      SentCost(Act(n, a).history.air, i, size);
    }
  }

  lemma CallKeepsRelay(n: Node, a: Action)
    requires Inv(n) && Allowed(n, a) && !a.DoUpdate?
    ensures Act(n, a).relay == n.relay
  {
    hide Inv;
  }

  /** What else a node's action sends. */
  function Originations(n: Node, a: Action): nat
    requires Inv(n) && Allowed(n, a)
  {
    hide Inv, Act, RingCost, FlightCost, CopyCost, SendCost, Times, Sent, R.Shaped;
    ActBalances(n, a, 0, 1);
    |Act(n, a).history.air| - Relayings(n, a)
  }

  // ---- the network ----

  /** A node acts, receiving copy `k` of the flight if it receives anything; or copy `k` is lost. */
  datatype Event = Do(node: nat, action: Action, k: nat) | Lose(k: nat)

  ghost predicate Sound(net: FloodNet) { forall i | 0 <= i < |net.nodes| :: Inv(net.nodes[i]) }

  predicate Possible(net: FloodNet, e: Event) {
    match e
    case Do(i, a, k) =>
      i < |net.nodes| && Allowed(net.nodes[i], a) &&
      (Receives(a) ==> k < |net.flight| && net.flight[k] == Copy(a.env.rx.packet, i))
    case Lose(k) => k < |net.flight|
  }

  function Left(net: FloodNet, e: Event): seq<Copy>
    requires Possible(net, e)
  {
    if e.Lose? || Receives(e.action) then Without(net.flight, e.k) else net.flight
  }

  /** Each copy is received once; each packet sent is copied to every other node. */
  function Happen(net: FloodNet, e: Event): (r: FloodNet)
    requires Sound(net) && Possible(net, e)
    ensures Sound(r) && |r.nodes| == |net.nodes|
  {
    hide Inv, Act, Sent;
    match e
    case Do(i, a, k) =>
      var n := Act(net.nodes[i], a);
      FloodNet(net.nodes[i := n], Left(net, e) + Sent(n.history.air, i, |net.nodes|))
    case Lose(k) => FloodNet(net.nodes, Left(net, e))
  }

  /** Deliveries and relays. */
  function Traffic(net: FloodNet, e: Event): nat
    requires Sound(net) && Possible(net, e)
  {
    hide Inv;
    if e.Lose? then 0 else Relayings(net.nodes[e.node], e.action) + if Receives(e.action) then 1 else 0
  }

  function Originating(net: FloodNet, e: Event): nat
    requires Sound(net) && Possible(net, e)
  {
    hide Inv;
    if e.Lose? then 0 else Originations(net.nodes[e.node], e.action)
  }

  /** What the queues of the first `m` nodes may cause. */
  ghost function QueuesCost(nodes: seq<Node>, m: nat): nat
    requires m <= |nodes| && forall i | 0 <= i < |nodes| :: Inv(nodes[i])
  {
    hide Inv, RingCost, R.RingInv, R.Shaped;
    if m == 0 then 0
    else
      RingIsSound(nodes[m - 1]);
      RingCost(|nodes|, nodes[m - 1].relay) + QueuesCost(nodes, m - 1)
  }

  /** What all copies under way and all queued packets may cause. */
  ghost function Pending(net: FloodNet): nat
    requires Sound(net)
  {
    FlightCost(|net.nodes|, net.flight) + QueuesCost(net.nodes, |net.nodes|)
  }

  lemma {:induction false} OneQueueChanges(nodes: seq<Node>, i: nat, n: Node, m: nat)
    requires i < |nodes| && m <= |nodes| && Inv(n) && forall j | 0 <= j < |nodes| :: Inv(nodes[j])
    ensures R.Shaped(n.relay) && R.Shaped(nodes[i].relay)
    ensures QueuesCost(nodes[i := n], m) == QueuesCost(nodes, m) +
              if i < m then RingCost(|nodes|, n.relay) - RingCost(|nodes|, nodes[i].relay) else 0
  {
    hide Inv, RingCost, R.Shaped;
    RingIsSound(n);
    RingIsSound(nodes[i]);
    if m > 0 { OneQueueChanges(nodes, i, n, m - 1); }
  }

  /** Every delivery and every relay uses up some of what is pending, and only what a node originates
      adds to it. */
  lemma StepUsesUp(net: FloodNet, e: Event)
    requires Sound(net) && Possible(net, e)
    ensures Pending(Happen(net, e)) + Traffic(net, e) <=
            Pending(net) + Times(Originating(net, e), SendCost(|net.nodes|))
  {
    hide Inv, Act, CopyCost, SendCost, FlightCost, QueuesCost, RingCost, R.Shaped, Sent;
    var n := |net.nodes|;
    if e.Lose? || Receives(e.action) { WithoutCosts(n, net.flight, e.k); }
    if e.Do? {
      var r := Act(net.nodes[e.node], e.action);
      ActBalances(net.nodes[e.node], e.action, e.node, n);
      OneQueueChanges(net.nodes, e.node, r, n);
      FlightCostAdds(n, Left(net, e), Sent(r.history.air, e.node, n));
    }
  }

  predicate PossibleRun(net: FloodNet, events: seq<Event>)
    requires Sound(net)
    decreases |events|
  {
    events == [] || (Possible(net, events[0]) && PossibleRun(Happen(net, events[0]), events[1..]))
  }

  function RunTraffic(net: FloodNet, events: seq<Event>): nat
    requires Sound(net) && PossibleRun(net, events)
    decreases |events|
  {
    if events == [] then 0 else Traffic(net, events[0]) + RunTraffic(Happen(net, events[0]), events[1..])
  }

  function RunOriginating(net: FloodNet, events: seq<Event>): nat
    requires Sound(net) && PossibleRun(net, events)
    decreases |events|
  {
    if events == [] then 0 else Originating(net, events[0]) + RunOriginating(Happen(net, events[0]), events[1..])
  }

  /** Flooding is bounded: in every run, whatever is lost, the deliveries and relays number at most what
      was pending, plus a constant for each packet originated. With nothing originated, flooding ends. */
  lemma {:induction false} FloodingEnds(net: FloodNet, events: seq<Event>)
    requires Sound(net) && PossibleRun(net, events)
    ensures RunTraffic(net, events) <= Pending(net) + RunOriginating(net, events) * SendCost(|net.nodes|)
    decreases |events|
  {
    hide Sound, Possible, Happen, Pending, SendCost, Traffic, Originating, Times;
    if events != [] {
      var r, c := Happen(net, events[0]), SendCost(|net.nodes|);
      var first, rest := Originating(net, events[0]), RunOriginating(r, events[1..]);
      StepUsesUp(net, events[0]);
      FloodingEnds(r, events[1..]);
      TimesIsProduct(first, c);
      assert (first + rest) * c == first * c + rest * c;
    }
  }

  /** The constant: a copy may cause two events, its delivery and its relay, and those of the copies
      made one hop on; after six hops it causes its delivery alone. */
  lemma CopyCostIs(n: nat, hop: nat)
    requires n > 0
    ensures CopyCost(n, hop) == if hop < MAX_HOP_COUNT then 2 + (n - 1) * CopyCost(n, hop + 1) else 1
  {
    if hop < MAX_HOP_COUNT { TimesIsProduct(n - 1, CopyCost(n, hop + 1)); }
  }
}
