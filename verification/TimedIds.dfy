/** The timing argument behind unique ids, by itself: stations that are updated often enough, over a
    network that loses no JOIN or CONFLICT_NAME packet and delivers it at once. The timed network of
    nodes refines it. */
module TimedIds {
  import opened Bytes
  import opened Packets
  import opened Registers

  datatype Phase = Outside | Seeking | Member

  /** For a seeking station `age` is the time since it took up its id, `silence` since it last sent a
      JOIN, `idle` since its last update, in milliseconds; for the others they are 0. */
  datatype Station = Station(uniqueId: uint16, phase: Phase, nodeId: byte, age: nat, silence: nat, idle: nat)

  /** A packet sent and not yet received by station `to`. */
  datatype Delivery = Delivery(packet: Packet, to: nat)

  datatype Sky = Sky(stations: seq<Station>, due: set<Delivery>)

  const ACCEPT_AFTER := 5000
  const LONGEST_DELAY := 599

  /** Stations are updated every `d` milliseconds, often enough for two of a seeking station's longest
      silences to fit in the accept delay. */
  predicate Prompt(d: nat) { 2 * (LONGEST_DELAY + d) <= ACCEPT_AFTER }

  predicate Timely(m: Station, d: nat) {
    m.phase == Seeking ==> m.idle <= d && m.silence <= LONGEST_DELAY + m.idle && m.age <= ACCEPT_AFTER + m.idle
  }

  /** A packet of this kind, sent by `by` for the id `by` has, has not reached station `to` yet. */
  ghost predicate Flying(due: set<Delivery>, kind: byte, source: Station, to: nat) {
    exists p: Packet :: Delivery(p, to) in due && IsAbout(p, kind, source.nodeId, source.uniqueId)
  }

  /** Of two seekers of one id the lower has waited less than the higher has been silent, or the
      higher's JOIN is about to reach it. */
  ghost predicate HeardInTime(due: set<Delivery>, hi: Station, lo: Station, to: nat, d: nat) {
    lo.age <= hi.silence || (Flying(due, PKT_JOIN, hi, to) && (lo.age <= LONGEST_DELAY + d || hi.age == 0))
  }

  /** A seeker of a member's id has sent its last JOIN early, or that JOIN is about to reach the member,
      or the member's answer the seeker. */
  ghost predicate AnsweredInTime(due: set<Delivery>, m: Station, i: nat, s: Station, j: nat, d: nat) {
    s.age - s.silence <= LONGEST_DELAY + d ||
    ((Flying(due, PKT_JOIN, s, i) || Flying(due, PKT_CONFLICT_NAME, m, j)) && s.age <= 2 * (LONGEST_DELAY + d))
  }

  /** What holds of stations `i` and `j` when both have the same id. */
  ghost predicate PairOk(due: set<Delivery>, a: Station, i: nat, b: Station, j: nat, d: nat) {
    a.nodeId == b.nodeId && a.phase != Outside && b.phase != Outside ==>
      !(a.phase == Member && b.phase == Member) &&
      (a.phase == Seeking && b.phase == Seeking && a.uniqueId > b.uniqueId ==> HeardInTime(due, a, b, j, d)) &&
      (a.phase == Member && b.phase == Seeking ==> AnsweredInTime(due, a, i, b, j, d))
  }

  ghost predicate SkyInv(s: Sky, d: nat) {
    Prompt(d) &&
    (forall i | 0 <= i < |s.stations| :: Timely(s.stations[i], d)) &&
    (forall i, j | 0 <= i < |s.stations| && 0 <= j < |s.stations| && i != j ::
       s.stations[i].uniqueId != s.stations[j].uniqueId) &&
    (forall i, j | 0 <= i < |s.stations| && 0 <= j < |s.stations| && i != j ::
       PairOk(s.due, s.stations[i], i, s.stations[j], j, d))
  }

  // ---- steps ----

  /** What a station does in one update or call: nothing about ids, taking up an id and sending a JOIN
      for it, becoming a member, or sending its JOIN again. */
  datatype Move = Rest | TakeUp(id: byte) | Accept | Resend

  /** A seeking station must take up another id when evicted, become a member when it has waited long
      enough, and send a JOIN when it has been silent too long. */
  predicate MayMove(m: Station, v: Move, got: Option<Packet>) {
    match v
    case TakeUp(id) => m.phase != Member
    case _ =>
      (v != Rest ==> m.phase == Seeking) &&
      (m.phase == Seeking ==> (got.Some? ==> !Dislodges(got.value, m.nodeId, m.uniqueId)) && (v == Accept <==> m.age > ACCEPT_AFTER)) &&
      (m.phase == Seeking && v == Rest ==> m.silence <= LONGEST_DELAY)
  }

  function Moved(m: Station, v: Move): Station {
    match v
    case Rest => m.(idle := 0)
    case TakeUp(id) => m.(phase := Seeking, nodeId := id, age := 0, silence := 0, idle := 0)
    case Accept => m.(phase := Member, age := 0, silence := 0, idle := 0)
    case Resend => m.(silence := 0, idle := 0)
  }

  /** Every other station is about to receive such a packet. */
  ghost predicate Announced(due: set<Delivery>, n: nat, kind: byte, source: Station, i: nat) {
    forall j: nat | j < n && j != i :: Flying(due, kind, source, j)
  }

  /** A member answers a packet sent under its own id by another station. */
  predicate Answers(m: Station, got: Option<Packet>) {
    m.phase == Member && got.Some? && Sender(got.value) == m.nodeId && UniqueId(got.value) != m.uniqueId
  }

  /** Only what station `i` received is no longer due; what it must send is. */
  ghost predicate Delivers(s: Sky, i: nat, v: Move, got: Option<Packet>, r: Sky)
    requires i < |s.stations| == |r.stations|
  {
    (forall x | x in s.due :: x in r.due || (x.to == i && got == Some(x.packet))) &&
    (v.TakeUp? || v.Resend? ==> Announced(r.due, |s.stations|, PKT_JOIN, r.stations[i], i)) &&
    (Answers(s.stations[i], got) ==> Announced(r.due, |s.stations|, PKT_CONFLICT_NAME, s.stations[i], i))
  }

  ghost predicate StationStep(s: Sky, i: nat, v: Move, got: Option<Packet>, r: Sky) {
    i < |s.stations| == |r.stations| && MayMove(s.stations[i], v, got) &&
    r.stations == s.stations[i := Moved(s.stations[i], v)] && Delivers(s, i, v, got, r)
  }

  function Aged(m: Station, ms: nat): Station {
    if m.phase != Seeking then m else m.(age := m.age + ms, silence := m.silence + ms, idle := m.idle + ms)
  }

  /** Time passes only when no packet is due, and no seeking station goes without an update too long. */
  ghost predicate TimeStep(s: Sky, ms: nat, r: Sky, d: nat) {
    s.due == {} == r.due && |r.stations| == |s.stations| &&
    forall i | 0 <= i < |s.stations| ::
      (s.stations[i].phase == Seeking ==> s.stations[i].idle + ms <= d) && r.stations[i] == Aged(s.stations[i], ms)
  }

  // ---- every step keeps every pair in order ----

  lemma StillFlying(s: Sky, i: nat, v: Move, got: Option<Packet>, r: Sky, kind: byte, m: Station, to: nat)
    requires StationStep(s, i, v, got, r) && Flying(s.due, kind, m, to)
    ensures Flying(r.due, kind, m, to) || (to == i && got.Some? && IsAbout(got.value, kind, m.nodeId, m.uniqueId))
  {
    var p: Packet :| Delivery(p, to) in s.due && IsAbout(p, kind, m.nodeId, m.uniqueId);
    assert Delivery(p, to) in r.due || (to == i && got == Some(p));
  }

  /** The station that moves is the higher seeker, or the member, of the pair. */
  lemma FirstMoves(s: Sky, i: nat, v: Move, got: Option<Packet>, r: Sky, j: nat, d: nat)
    requires StationStep(s, i, v, got, r) && SkyInv(s, d) && j < |s.stations| && j != i
    ensures PairOk(r.due, r.stations[i], i, s.stations[j], j, d)
  {
    var a, b, c := s.stations[i], s.stations[j], r.stations[i];
    assert PairOk(s.due, a, i, b, j, d) && PairOk(s.due, b, j, a, i, d) && Timely(a, d) && Timely(b, d);
    if c.nodeId == b.nodeId && c.phase == Seeking && b.phase == Seeking && c.uniqueId > b.uniqueId {
      if v == Rest && Flying(s.due, PKT_JOIN, a, j) { StillFlying(s, i, v, got, r, PKT_JOIN, a, j); }
    }
    if c.nodeId == b.nodeId && c.phase == Member && b.phase == Seeking {
      if v == Rest { MemberStillAnswers(s, i, got, r, j, d); }
    }
  }

  lemma MemberStillAnswers(s: Sky, i: nat, got: Option<Packet>, r: Sky, j: nat, d: nat)
    requires StationStep(s, i, Rest, got, r) && j < |s.stations| && j != i
    requires s.stations[i].uniqueId != s.stations[j].uniqueId && s.stations[i].phase == Member
    requires s.stations[i].nodeId == s.stations[j].nodeId
    requires AnsweredInTime(s.due, s.stations[i], i, s.stations[j], j, d)
    ensures AnsweredInTime(r.due, r.stations[i], i, s.stations[j], j, d)
  {
    var a, b := s.stations[i], s.stations[j];
    if Flying(s.due, PKT_JOIN, b, i) { StillFlying(s, i, Rest, got, r, PKT_JOIN, b, i); }
    if Flying(s.due, PKT_CONFLICT_NAME, a, j) { StillFlying(s, i, Rest, got, r, PKT_CONFLICT_NAME, a, j); }
    if Answers(a, got) { assert Flying(r.due, PKT_CONFLICT_NAME, a, j); }
  }

  /** The station that moves is the lower seeker, or the seeker of a member's id. */
  lemma SecondMoves(s: Sky, i: nat, v: Move, got: Option<Packet>, r: Sky, j: nat, d: nat)
    requires StationStep(s, i, v, got, r) && SkyInv(s, d) && j < |s.stations| && j != i
    ensures PairOk(r.due, s.stations[j], j, r.stations[i], i, d)
  {
    var a, b, c := s.stations[j], s.stations[i], r.stations[i];
    assert PairOk(s.due, a, j, b, i, d) && Timely(a, d) && Timely(b, d);
    if c.nodeId == a.nodeId && a.phase == Seeking && c.phase == Seeking && a.uniqueId > c.uniqueId {
      if Flying(s.due, PKT_JOIN, a, i) { StillFlying(s, i, v, got, r, PKT_JOIN, a, i); }
    }
    if c.nodeId == a.nodeId && a.phase == Member && c.phase == Seeking {
      if Flying(s.due, PKT_CONFLICT_NAME, a, i) { StillFlying(s, i, v, got, r, PKT_CONFLICT_NAME, a, i); }
      if v == Rest && Flying(s.due, PKT_JOIN, b, j) { StillFlying(s, i, v, got, r, PKT_JOIN, b, j); }
    }
  }

  lemma OthersStay(s: Sky, i: nat, v: Move, got: Option<Packet>, r: Sky, j: nat, k: nat, d: nat)
    requires StationStep(s, i, v, got, r) && j < |s.stations| && k < |s.stations| && j != i && k != i
    requires PairOk(s.due, s.stations[j], j, s.stations[k], k, d)
    ensures PairOk(r.due, s.stations[j], j, s.stations[k], k, d)
  {
    var a, b := s.stations[j], s.stations[k];
    if Flying(s.due, PKT_JOIN, a, k) { StillFlying(s, i, v, got, r, PKT_JOIN, a, k); }
    if Flying(s.due, PKT_JOIN, b, j) { StillFlying(s, i, v, got, r, PKT_JOIN, b, j); }
    if Flying(s.due, PKT_CONFLICT_NAME, a, k) { StillFlying(s, i, v, got, r, PKT_CONFLICT_NAME, a, k); }
  }

  lemma StationStepKeepsInv(s: Sky, i: nat, v: Move, got: Option<Packet>, r: Sky, d: nat)
    requires StationStep(s, i, v, got, r) && SkyInv(s, d)
    ensures SkyInv(r, d)
  {
    hide PairOk, StationStep;
    assert |r.stations| == |s.stations| && i < |s.stations| && MayMove(s.stations[i], v, got) &&
           r.stations == s.stations[i := Moved(s.stations[i], v)] by { StepShape(s, i, v, got, r); }
    forall j, k | 0 <= j < |r.stations| && 0 <= k < |r.stations| && j != k
      ensures PairOk(r.due, r.stations[j], j, r.stations[k], k, d)
    {
      if j == i { FirstMoves(s, i, v, got, r, k, d); }
      else if k == i { SecondMoves(s, i, v, got, r, j, d); }
      else { OthersStay(s, i, v, got, r, j, k, d); }
    }
  }

  lemma StepShape(s: Sky, i: nat, v: Move, got: Option<Packet>, r: Sky)
    requires StationStep(s, i, v, got, r)
    ensures |r.stations| == |s.stations| && i < |s.stations| && MayMove(s.stations[i], v, got)
    ensures r.stations == s.stations[i := Moved(s.stations[i], v)]
  {
  }

  lemma TimeStepKeepsInv(s: Sky, ms: nat, r: Sky, d: nat)
    requires TimeStep(s, ms, r, d) && SkyInv(s, d)
    ensures SkyInv(r, d)
  {
    forall j, k | 0 <= j < |r.stations| && 0 <= k < |r.stations| && j != k
      ensures PairOk(r.due, r.stations[j], j, r.stations[k], k, d)
    {
      assert PairOk(s.due, s.stations[j], j, s.stations[k], k, d);
      assert r.stations[j] == Aged(s.stations[j], ms) && r.stations[k] == Aged(s.stations[k], ms);
    }
  }

  /** More packets on their way disturb nothing. */
  lemma MorePacketsKeepInv(s: Sky, r: Sky, d: nat)
    requires SkyInv(s, d) && r.stations == s.stations && s.due <= r.due
    ensures SkyInv(r, d)
  {
    forall j, k | 0 <= j < |r.stations| && 0 <= k < |r.stations| && j != k
      ensures PairOk(r.due, r.stations[j], j, r.stations[k], k, d)
    {
      assert PairOk(s.due, s.stations[j], j, s.stations[k], k, d);
      assert forall kind: byte, m, to :: Flying(s.due, kind, m, to) ==> Flying(r.due, kind, m, to);
    }
  }

  /** No two members have the same id. */
  lemma MembersDiffer(s: Sky, i: nat, j: nat, d: nat)
    requires SkyInv(s, d) && i < |s.stations| && j < |s.stations| && i != j
    requires s.stations[i].phase == Member && s.stations[j].phase == Member
    ensures s.stations[i].nodeId != s.stations[j].nodeId
  {
    assert PairOk(s.due, s.stations[i], i, s.stations[j], j, d);
  }
}
