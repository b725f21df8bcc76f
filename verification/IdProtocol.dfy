/** The id-assignment protocol by itself: what each member claims and holds, what has been said about
    ids, and the steps by which that changes. The network of nodes refines it. */
module IdProtocol {
  import opened Bytes
  import opened Packets

  /** `claims` are all ids the member ever claimed; the last of them, `nodeId`, is the one it holds. */
  datatype Member = Member(uniqueId: uint16, started: bool, onMesh: bool, nodeId: byte, claims: set<int>)

  datatype Proto = Proto(members: seq<Member>, sent: set<Packet>)

  const MAX_MEMBERS := 255

  /** 1 to `k` */
  function Ids(k: nat): (s: set<int>)
    ensures forall id :: id in s <==> 1 <= id <= k
  {
    if k == 0 then {} else Ids(k - 1) + {k}
  }

  /** 0 to `n - 1` */
  function Indices(n: nat): (s: set<nat>)
    ensures forall i: nat :: i in s <==> i < n
    ensures |s| == n
  {
    if n == 0 then {} else Indices(n - 1) + {n - 1}
  }

  predicate Holds(p: Proto, w: nat, id: int) {
    w < |p.members| && p.members[w].started && p.members[w].nodeId == id
  }

  /** A member that will not be moved off its id by anyone of unique id `u` or lower. */
  predicate Outranks(m: Member, u: uint16) { m.onMesh || m.uniqueId >= u }

  /** Some member that outranks `u` holds `id`. */
  predicate Kept(p: Proto, id: int, u: uint16) {
    exists w: nat | w < |p.members| :: Holds(p, w, id) && Outranks(p.members[w], u)
  }

  /** A JOIN is a claim its sender made; a CONFLICT_NAME names the id its sender holds on the mesh. */
  predicate Vouched(m: Member, q: Packet) {
    m.uniqueId == UniqueId(q) &&
    (Kind(q) == PKT_JOIN ==> Sender(q) in m.claims) &&
    (Kind(q) == PKT_CONFLICT_NAME ==> m.onMesh && m.nodeId == Sender(q))
  }

  predicate Truthful(p: Proto, q: Packet) {
    AboutIds(q) ==> exists j | 0 <= j < |p.members| :: Vouched(p.members[j], q)
  }

  predicate DistinctUniqueIds(ms: seq<Member>) {
    forall i, j | 0 <= i < j < |ms| :: ms[i].uniqueId != ms[j].uniqueId
  }

  predicate WellClaimed(m: Member) {
    m.claims == (if m.started then Ids(m.nodeId) else {}) && (m.onMesh ==> m.started) && (m.started ==> m.nodeId >= 1)
  }

  predicate ProtoInv(p: Proto) {
    |p.members| <= MAX_MEMBERS && DistinctUniqueIds(p.members) &&
    (forall i {:trigger WellClaimed(p.members[i])} | 0 <= i < |p.members| :: WellClaimed(p.members[i])) &&
    (forall q {:trigger Truthful(p, q)} | q in p.sent :: Truthful(p, q)) &&
    (forall i, id {:trigger Kept(p, id, p.members[i].uniqueId)} | 0 <= i < |p.members| && id in p.members[i].claims ::
      Kept(p, id, p.members[i].uniqueId))
  }

  // ---- steps ----

  datatype Step = Stay | Enter | Move(mover: Packet)

  /** A member's step: it enters at id 1, or moves on one id because of a packet sent earlier, or stays.
      It may be on the mesh afterwards. */
  predicate MemberStep(m: Member, s: Step, r: Member, sent: set<Packet>) {
    r.uniqueId == m.uniqueId && (m.onMesh ==> r.onMesh) &&
    match s
    case Stay => r.started == m.started && (m.started ==> r.nodeId == m.nodeId) && r.claims == m.claims &&
                 (r.onMesh ==> m.started)
    case Enter => !m.started && r.started && r.nodeId == 1 && r.claims == m.claims + {1}
    case Move(q) => m.started && !m.onMesh && q in sent && Dislodges(q, m.nodeId, m.uniqueId) && r.started &&
                    r.nodeId == (m.nodeId + 1) % 0x100 && r.claims == m.claims + {r.nodeId}
  }

  /** Member `i` steps; every packet about ids added to the network was there before or is vouched for
      by that member. */
  predicate ProtoStep(p: Proto, i: nat, s: Step, r: Proto) {
    i < |p.members| == |r.members| && p.sent <= r.sent &&
    r.members == p.members[i := r.members[i]] && MemberStep(p.members[i], s, r.members[i], p.sent) &&
    forall q | q in r.sent && q !in p.sent && AboutIds(q) :: Vouched(r.members[i], q)
  }

  // ---- counting ----

  lemma {:induction false} SubsetCount<T>(a: set<T>, b: set<T>)
    requires a <= b
    ensures |a| <= |b|
  {
    assert b == a + (b - a);
  }

  /** The members among `among` that hold an id from 1 to `k`. */
  function Holders(p: Proto, among: set<nat>, k: nat): set<nat> {
    set w | w in among && w < |p.members| && p.members[w].started && 1 <= p.members[w].nodeId <= k
  }

  predicate HeldAmong(p: Proto, among: set<nat>, id: int) {
    exists w :: w in among && Holds(p, w, id)
  }

  /** If each id from 1 to `k` has a holder in `among`, there are at least `k` of them. */
  lemma {:induction false} HoldersCount(p: Proto, among: set<nat>, k: nat)
    requires forall id | 1 <= id <= k :: HeldAmong(p, among, id)
    ensures |Holders(p, among, k)| >= k
    ensures |among| >= k
  {
    if k > 0 {
      HoldersCount(p, among, k - 1);
      assert HeldAmong(p, among, k);
      var w :| w in among && Holds(p, w, k);
      assert w !in Holders(p, among, k - 1) && w in Holders(p, among, k);
      SubsetCount(Holders(p, among, k - 1) + {w}, Holders(p, among, k));
    }
    SubsetCount(Holders(p, among, k), among);
  }

  // ---- no id is ever abandoned ----

  /** The packet that moves a member on names an id another member keeps. */
  lemma MoverKeeps(p: Proto, i: nat, q: Packet) returns (w: nat)
    requires ProtoInv(p) && i < |p.members| && p.members[i].started && !p.members[i].onMesh
    requires q in p.sent && Dislodges(q, p.members[i].nodeId, p.members[i].uniqueId)
    ensures w < |p.members| && w != i && Holds(p, w, p.members[i].nodeId)
    ensures Outranks(p.members[w], p.members[i].uniqueId)
  {
    var m := p.members[i];
    assert Truthful(p, q) && AboutIds(q);
    var j :| 0 <= j < |p.members| && Vouched(p.members[j], q);
    assert WellClaimed(p.members[j]);
    if Kind(q) == PKT_CONFLICT_NAME {
      w := j;
    } else {
      assert Kept(p, Sender(q), p.members[j].uniqueId);
      w :| w < |p.members| && Holds(p, w, m.nodeId) && Outranks(p.members[w], p.members[j].uniqueId);
    }
  }

  /** A member that moves on leaves its id in other hands, so its next id is no more than the number of
      members, and the byte addition does not wrap. */
  lemma MoveDoesNotWrap(p: Proto, i: nat, q: Packet)
    requires ProtoInv(p) && i < |p.members| && p.members[i].started && !p.members[i].onMesh
    requires q in p.sent && Dislodges(q, p.members[i].nodeId, p.members[i].uniqueId)
    ensures p.members[i].nodeId + 1 <= |p.members|
  {
    var m := p.members[i];
    var others := Indices(|p.members|) - {i};
    forall id | 1 <= id <= m.nodeId ensures HeldAmong(p, others, id) {
      assert WellClaimed(m);
      if id == m.nodeId {
        var w := MoverKeeps(p, i, q);
        assert w in others && Holds(p, w, id);
      } else {
        ClaimIsHeldByOther(p, i, id);
      }
    }
    HoldersCount(p, others, m.nodeId);
  }

  /** An id a member has claimed and left is held by another member. */
  lemma ClaimIsHeldByOther(p: Proto, i: nat, id: int)
    requires ProtoInv(p) && i < |p.members| && id in p.members[i].claims && id != p.members[i].nodeId
    ensures HeldAmong(p, Indices(|p.members|) - {i}, id)
  {
    assert Kept(p, id, p.members[i].uniqueId);
    var w: nat :| w < |p.members| && Holds(p, w, id) && Outranks(p.members[w], p.members[i].uniqueId);
    assert w in Indices(|p.members|) - {i};
  }

  /** An id kept before a step is kept after it. */
  lemma StepKeeps(p: Proto, i: nat, s: Step, r: Proto, id: int, u: uint16)
    requires ProtoInv(p) && ProtoStep(p, i, s, r) && Kept(p, id, u)
    ensures Kept(r, id, u)
  {
    var w: nat :| w < |p.members| && Holds(p, w, id) && Outranks(p.members[w], u);
    if w == i && s.Move? {
      var v := MoverKeeps(p, i, s.mover);
      assert Holds(r, v, id) && Outranks(r.members[v], u);
    } else {
      assert Holds(r, w, id) && Outranks(r.members[w], u);
    }
  }

  lemma StepVouches(p: Proto, i: nat, s: Step, r: Proto, q: Packet)
    requires ProtoInv(p) && ProtoStep(p, i, s, r) && q in r.sent
    ensures Truthful(r, q)
  {
    if AboutIds(q) && q in p.sent {
      assert Truthful(p, q);
      var j :| 0 <= j < |p.members| && Vouched(p.members[j], q);
      assert WellClaimed(p.members[j]);
      assert Vouched(r.members[j], q);
    }
  }

  lemma StepClaimsWell(p: Proto, i: nat, s: Step, r: Proto)
    requires ProtoInv(p) && ProtoStep(p, i, s, r)
    ensures WellClaimed(r.members[i])
    ensures r.members[i].started ==> Holds(r, i, r.members[i].nodeId)
    ensures forall id | id in r.members[i].claims :: id in p.members[i].claims || id == r.members[i].nodeId
  {
    if s.Move? { MoveDoesNotWrap(p, i, s.mover); }
    assert WellClaimed(p.members[i]);
  }

  lemma StepKeepsInv(p: Proto, i: nat, s: Step, r: Proto)
    requires ProtoInv(p) && ProtoStep(p, i, s, r)
    ensures ProtoInv(r)
  {
    StepClaimsWell(p, i, s, r);
    forall q | q in r.sent ensures Truthful(r, q) { StepVouches(p, i, s, r, q); }
    forall j, id | 0 <= j < |r.members| && id in r.members[j].claims ensures Kept(r, id, r.members[j].uniqueId) {
      if id in p.members[j].claims {
        StepKeeps(p, i, s, r, id, p.members[j].uniqueId);
      } else {
        assert Holds(r, i, id) && Outranks(r.members[i], r.members[j].uniqueId);
      }
    }
  }

  /** The highest id any of the first `n` members holds. */
  function TopId(ms: seq<Member>, n: nat): (k: nat)
    requires n <= |ms|
    ensures forall i | 0 <= i < n && ms[i].started :: ms[i].nodeId <= k
    ensures k == 0 || exists i | 0 <= i < n :: ms[i].started && ms[i].nodeId == k
  {
    if n == 0 then 0
    else if ms[n - 1].started && ms[n - 1].nodeId > TopId(ms, n - 1) then ms[n - 1].nodeId
    else TopId(ms, n - 1)
  }

  /** Every id ever claimed is still held; so the ids in use are exactly 1 to K, and K is at most the
      number of members. */
  lemma NoIdIsAbandoned(p: Proto)
    requires ProtoInv(p)
    ensures forall i, id | 0 <= i < |p.members| && id in p.members[i].claims :: HeldAmong(p, Indices(|p.members|), id)
    ensures var k := TopId(p.members, |p.members|);
            k <= |p.members| && forall id :: HeldAmong(p, Indices(|p.members|), id) <==> 1 <= id <= k
  {
    var n := |p.members|;
    var k := TopId(p.members, n);
    forall i, id | 0 <= i < n && id in p.members[i].claims ensures HeldAmong(p, Indices(n), id) {
      assert Kept(p, id, p.members[i].uniqueId);
      var w: nat :| w < n && Holds(p, w, id) && Outranks(p.members[w], p.members[i].uniqueId);
      assert w in Indices(n);
    }
    forall id | 1 <= id <= k ensures HeldAmong(p, Indices(n), id) {
      var i :| 0 <= i < n && p.members[i].started && p.members[i].nodeId == k;
      assert WellClaimed(p.members[i]);
    }
    forall id | HeldAmong(p, Indices(n), id) ensures 1 <= id <= k {
      var w :| w in Indices(n) && Holds(p, w, id);
      assert WellClaimed(p.members[w]);
    }
    HoldersCount(p, Indices(n), k);
  }

  // ---- ranks, while nobody is on the mesh ----

  /** The members, of the first `n`, with a higher unique id than member `i`. */
  function HigherAmong(ms: seq<Member>, n: nat, i: nat): (s: set<nat>)
    requires n <= |ms| && i < |ms|
    ensures forall j: nat :: j in s <==> j < n && ms[j].uniqueId > ms[i].uniqueId
  {
    if n == 0 then {}
    else if ms[n - 1].uniqueId > ms[i].uniqueId then HigherAmong(ms, n - 1, i) + {n - 1}
    else HigherAmong(ms, n - 1, i)
  }

  function Higher(ms: seq<Member>, i: nat): set<nat>
    requires i < |ms|
  {
    HigherAmong(ms, |ms|, i)
  }

  /** 1 for the highest unique id. */
  function Rank(ms: seq<Member>, i: nat): nat
    requires i < |ms|
  {
    |Higher(ms, i)| + 1
  }

  predicate NobodyOnMesh(ms: seq<Member>) {
    forall i {:trigger ms[i].onMesh} | 0 <= i < |ms| :: !ms[i].onMesh
  }

  predicate HeldOnce(ms: seq<Member>) {
    forall i, j | 0 <= i < j < |ms| :: ms[i].nodeId != ms[j].nodeId
  }

  /** While all are still joining, no member's id exceeds its rank by descending unique id. */
  lemma IdAtMostRank(p: Proto, i: nat)
    requires ProtoInv(p) && NobodyOnMesh(p.members) && i < |p.members| && p.members[i].started
    ensures p.members[i].nodeId <= Rank(p.members, i)
  {
    var m, higher := p.members[i], Higher(p.members, i);
    assert WellClaimed(m);
    forall id | 1 <= id <= m.nodeId - 1 ensures HeldAmong(p, higher, id) {
      assert id in m.claims;
      assert Kept(p, id, m.uniqueId);
      var w: nat :| w < |p.members| && Holds(p, w, id) && Outranks(p.members[w], m.uniqueId);
      assert w != i && p.members[w].uniqueId != m.uniqueId;
      assert w in higher;
    }
    HoldersCount(p, higher, m.nodeId - 1);
  }

  /** Members holding ids from 1 to `k`, no two the same, are at most `k`. */
  lemma {:induction false} DistinctIdsBound(ms: seq<Member>, among: set<nat>, k: nat)
    requires HeldOnce(ms)
    requires forall w | w in among :: w < |ms| && 1 <= ms[w].nodeId <= k
    ensures |among| <= k
  {
    if k > 0 {
      if w :| w in among && ms[w].nodeId == k {
        DistinctIdsBound(ms, among - {w}, k - 1);
      } else {
        DistinctIdsBound(ms, among, k - 1);
      }
    } else if w :| w in among {
      assert false;
    }
  }

  /** Once all have started, none is on the mesh, and no two share an id, each member's id is exactly
      its rank. */
  lemma SettledIdIsRank(p: Proto, i: nat)
    requires ProtoInv(p) && NobodyOnMesh(p.members) && HeldOnce(p.members) && i < |p.members|
    requires forall j | 0 <= j < |p.members| :: p.members[j].started
    ensures p.members[i].nodeId == Rank(p.members, i)
  {
    var ms := p.members;
    IdAtMostRank(p, i);
    if ms[i].nodeId < Rank(ms, i) {
      var group := Higher(ms, i) + {i};
      forall w | w in group ensures 1 <= ms[w].nodeId <= Rank(ms, i) - 1 {
        assert WellClaimed(ms[w]);
        if w != i { HigherRanksHigher(ms, i, w); IdAtMostRank(p, w); }
      }
      DistinctIdsBound(ms, group, Rank(ms, i) - 1);
      assert false;
    }
  }

  lemma HigherRanksHigher(ms: seq<Member>, i: nat, w: nat)
    requires i < |ms| && w < |ms| && ms[w].uniqueId > ms[i].uniqueId
    ensures Rank(ms, w) < Rank(ms, i)
  {
    assert w in Higher(ms, i) && w !in Higher(ms, w);
    SubsetCount(Higher(ms, w) + {w}, Higher(ms, i));
  }

  /** The ids given up so far by the first `n` members. */
  function Moved(ms: seq<Member>, n: nat): int
    requires n <= |ms|
  {
    if n == 0 then 0 else Moved(ms, n - 1) + if ms[n - 1].started then ms[n - 1].nodeId - 1 else 0
  }

  /** Exactly the moves add to the ids given up, one each. */
  lemma StepMoved(p: Proto, i: nat, s: Step, r: Proto, n: nat)
    requires ProtoInv(p) && ProtoStep(p, i, s, r) && n <= |p.members|
    ensures Moved(r.members, n) == Moved(p.members, n) + if s.Move? && i < n then 1 else 0
    decreases n
  {
    if n > 0 {
      StepMoved(p, i, s, r, n - 1);
      if s.Move? { MoveDoesNotWrap(p, i, s.mover); }
    }
  }

  // ---- how much was moved ----

  /** The ids given up so far, counting at most `k` for each of the first `n` members. */
  function Capped(ms: seq<Member>, n: nat, k: nat): int
    requires n <= |ms|
  {
    if n == 0 then 0
    else Capped(ms, n - 1, k) +
         if !ms[n - 1].started then 0 else if ms[n - 1].nodeId - 1 <= k then ms[n - 1].nodeId - 1 else k
  }

  /** The members, of the first `n`, whose id is above `k`. */
  function Over(p: Proto, n: nat, k: nat): (s: set<nat>)
    requires n <= |p.members|
    ensures forall w: nat :: w in s <==> w < n && p.members[w].started && p.members[w].nodeId > k
  {
    if n == 0 then {}
    else Over(p, n - 1, k) + if p.members[n - 1].started && p.members[n - 1].nodeId > k then {n - 1} else {}
  }

  lemma {:induction false} CappedStep(p: Proto, n: nat, k: nat)
    requires n <= |p.members| && k > 0
    requires forall w | 0 <= w < n && p.members[w].started :: p.members[w].nodeId >= 1
    ensures Capped(p.members, n, k) == Capped(p.members, n, k - 1) + |Over(p, n, k)|
  {
    hide Over;
    if n == 0 {
      NobodyOver(p, k);
    } else {
      CappedStep(p, n - 1, k);
      OneMoreOver(p, n, k);
    }
  }

  lemma NobodyOver(p: Proto, k: nat)
    ensures Over(p, 0, k) == {}
  {
  }

  lemma OneMoreOver(p: Proto, n: nat, k: nat)
    requires 0 < n <= |p.members|
    ensures |Over(p, n, k)| ==
            |Over(p, n - 1, k)| + if p.members[n - 1].started && p.members[n - 1].nodeId > k then 1 else 0
  {
    assert n - 1 !in Over(p, n - 1, k);
  }

  /** With the ids up to `k` all held, at most n - k members have a higher one. */
  lemma FewAreOver(p: Proto, k: nat)
    requires forall id | 1 <= id <= k :: HeldAmong(p, Indices(|p.members|), id)
    ensures |Over(p, |p.members|, k)| <= |p.members| - k
  {
    var all := Indices(|p.members|);
    HoldersCount(p, all, k);
    var low, high := Holders(p, all, k), Over(p, |p.members|, k);
    assert low !! high;
    SubsetCount(low + high, all);
  }

  /** Each cap raised by one lets through one less. */
  lemma {:induction false} CappedBound(p: Proto, k: nat)
    requires k <= |p.members| && forall id | 1 <= id <= k :: HeldAmong(p, Indices(|p.members|), id)
    requires forall w | 0 <= w < |p.members| && p.members[w].started :: p.members[w].nodeId >= 1
    ensures 2 * Capped(p.members, |p.members|, k) <= k * (2 * |p.members| - k - 1)
  {
    var n := |p.members|;
    if k == 0 {
      CappedAtNothing(p.members, n);
    } else {
      CappedBound(p, k - 1);
      CappedStep(p, n, k);
      FewAreOver(p, k);
      assert k * (2 * n - k - 1) == (k - 1) * (2 * n - k) + 2 * (n - k);
    }
  }

  lemma {:induction false} CappedAtNothing(ms: seq<Member>, n: nat)
    requires n <= |ms| && forall w | 0 <= w < n && ms[w].started :: ms[w].nodeId >= 1
    ensures Capped(ms, n, 0) == 0
  {
    if n > 0 { CappedAtNothing(ms, n - 1); }
  }

  lemma {:induction false} CappedIsMoved(ms: seq<Member>, n: nat, k: nat)
    requires n <= |ms| && forall w | 0 <= w < n && ms[w].started :: ms[w].nodeId - 1 <= k
    ensures Capped(ms, n, k) == Moved(ms, n)
  {
    if n > 0 { CappedIsMoved(ms, n - 1, k); }
  }

  /** At most n(n-1)/2 ids have been given up altogether: held ids have no gap, so the i-th lowest is at
      most i. */
  lemma MovesBound(p: Proto)
    requires ProtoInv(p)
    ensures 2 * Moved(p.members, |p.members|) <= |p.members| * (|p.members| - 1)
  {
    hide ProtoInv;
    var n := |p.members|;
    NoIdIsAbandoned(p);
    IdsArePositive(p);
    var k := TopId(p.members, n);
    CappedIsMoved(p.members, n, k);
    CappedBound(p, k);
    ProductBound(n, k);
  }

  lemma ProductBound(n: nat, k: nat)
    requires k <= n
    ensures k * (2 * n - k - 1) <= n * (n - 1)
  {
    assert n * (n - 1) - k * (2 * n - k - 1) == (n - k) * (n - k - 1);
    assert k == n || (n - k) * (n - k - 1) >= 0;
  }

  lemma IdsArePositive(p: Proto)
    requires ProtoInv(p)
    ensures forall w | 0 <= w < |p.members| && p.members[w].started :: p.members[w].nodeId >= 1
  {
    forall w | 0 <= w < |p.members| && p.members[w].started ensures p.members[w].nodeId >= 1 {
      assert WellClaimed(p.members[w]);
    }
  }
}
