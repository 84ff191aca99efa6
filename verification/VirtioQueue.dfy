/** The driver's and the device's shared memory in kernel/virtio_disk.c as
    values: descriptors, the two rings with 16-bit indices, and the requests in
    flight (split virtqueues, sections 2.6 and 5.2 of Virtio 1.1). */
module VirtioQueue {
  import opened Common

  const NUM: nat := 8
  const WRAP: nat := 0x1_0000

  type Idx = x: nat | x < NUM witness 0
  type Buf = nat

  /** What a descriptor points at: a request header, a buffer's data, or the
      status byte of a request, named by its head descriptor. */
  datatype Addr = Nowhere | Header(h: Idx) | Data(b: Buf) | Status(h: Idx)

  datatype Desc = Desc(addr: Addr, more: bool, write: bool, next: Idx)

  const CLEAR: Desc := Desc(Nowhere, false, false, 0)

  datatype Info = Info(b: Option<Buf>, status: nat)

  /** A request header: whether the disk is to be written, and from which sector
      on. */
  datatype Req = Req(out: bool, sector: nat)

  /** Queued: in the avail ring. Fetched: the device has it. Finished: in the
      used ring. Seen: the interrupt handler has told its buffer. */
  datatype Phase = Queued | Fetched | Finished | Seen

  /** What a descriptor is used for: free, or the head of a request with its
      buffer, its direction, the two descriptors after it, its phase and what the
      device has reported (0xff until it has), or the second or third descriptor
      of the request with head h. */
  datatype Role =
    | Unused
    | Head(b: Buf, write: bool, d1: Idx, d2: Idx, phase: Phase, result: nat)
    | Second(h: Idx)
    | Third(h: Idx)

  datatype Queue = Queue(
    free: seq<bool>,
    desc: seq<Desc>,
    avail: seq<Idx>, availIdx: nat,       // written by the driver
    fetchIdx: nat,                        // how far the device has read it
    used: seq<Idx>, usedIdx: nat,         // written by the device
    seenIdx: nat,                         // how far the driver has read it
    info: seq<Info>,
    ops: seq<Req>,
    busy: set<Buf>,                       // buffers with disk == 1
    role: seq<Role>,
    availQ: seq<Idx>, usedQ: seq<Idx>)    // what the rings hold, oldest first

  ghost predicate Sized(s: Queue) {
    |s.free| == NUM && |s.desc| == NUM && |s.avail| == NUM && |s.used| == NUM && |s.info| == NUM && |s.role| == NUM
    && |s.ops| == NUM
  }

  /** Every request has a chain of three descriptors of its own, filled in as
      the device expects: header, data, status. */
  ghost predicate Chains(desc: seq<Desc>, role: seq<Role>)
    requires |desc| == NUM && |role| == NUM
  {
    forall i: Idx :: Linked(desc, role, i)
  }

  ghost predicate Linked(desc: seq<Desc>, role: seq<Role>, i: Idx)
    requires |desc| == NUM && |role| == NUM
  {
    match role[i]
    case Unused => true
    case Head(b, w, d1, d2, _, _) =>
      role[d1] == Second(i) && role[d2] == Third(i) && desc[i] == Desc(Header(i), true, false, d1)
    case Second(h) =>
      role[h].Head? && role[h].d1 == i && desc[i] == Desc(Data(role[h].b), true, !role[h].write, role[h].d2)
    case Third(h) => role[h].Head? && role[h].d2 == i && desc[i] == Desc(Status(h), false, true, 0)
  }

  ghost predicate FreeExact(free: seq<bool>, role: seq<Role>)
    requires |free| == NUM && |role| == NUM
  {
    forall i: Idx :: free[i] <==> role[i].Unused?
  }

  /** From start to idx the ring holds q, no entry overwritten. */
  ghost predicate Ring(ring: seq<Idx>, start: nat, idx: nat, q: seq<Idx>) {
    && |ring| == NUM && |q| <= NUM && start < WRAP && idx == (start + |q|) % WRAP
    && forall k :: 0 <= k < |q| ==> ring[(start + k) % NUM] == q[k]
  }

  /** q lists the requests in a phase, each once. */
  ghost predicate Lists(q: seq<Idx>, role: seq<Role>, ph: Phase)
    requires |role| == NUM
  {
    && (forall k :: 0 <= k < |q| ==> role[q[k]].Head? && role[q[k]].phase == ph)
    && (forall j, k :: 0 <= j < k < |q| ==> q[j] != q[k])
    && (forall h: Idx :: role[h].Head? && role[h].phase == ph ==> h in q)
  }

  /** The status byte is the device's report; a request whose buffer has been
      told of went well. */
  ghost predicate Infos(info: seq<Info>, role: seq<Role>)
    requires |info| == NUM && |role| == NUM
  {
    forall h: Idx :: role[h].Head? ==>
      && info[h] == Info(Some(role[h].b), role[h].result)
      && (role[h].phase.Queued? || role[h].phase.Fetched? ==> role[h].result == 0xff)
      && (role[h].phase.Seen? ==> role[h].result == 0)
  }

  /** A buffer has at most one request, and is busy until that is seen. */
  ghost predicate Busy(busy: set<Buf>, role: seq<Role>)
    requires |role| == NUM
  {
    && (forall h: Idx, k: Idx :: role[h].Head? && role[k].Head? && role[h].b == role[k].b ==> h == k)
    && (forall h: Idx :: role[h].Head? ==> (role[h].b in busy <==> !role[h].phase.Seen?))
  }

  ghost predicate Inv(s: Queue) {
    && Sized(s) && Chains(s.desc, s.role) && FreeExact(s.free, s.role)
    && Ring(s.avail, s.fetchIdx, s.availIdx, s.availQ) && Ring(s.used, s.seenIdx, s.usedIdx, s.usedQ)
    && Lists(s.availQ, s.role, Queued) && Lists(s.usedQ, s.role, Finished)
    && Infos(s.info, s.role) && Busy(s.busy, s.role)
  }

  // ---- counting ----

  function Heads(role: seq<Role>): set<Idx> {
    set i: Idx | i < |role| && role[i].Head?
  }

  function Frees(role: seq<Role>): set<Idx> {
    set i: Idx | i < |role| && role[i].Unused?
  }

  function Seconds(role: seq<Role>): set<Idx> {
    set i: Idx | i < |role| && role[i].Second?
  }

  function Thirds(role: seq<Role>): set<Idx> {
    set i: Idx | i < |role| && role[i].Third?
  }

  /** The eight descriptors are the free ones and three for each request. */
  lemma EightDescriptors(s: Queue)
    requires Inv(s)
    ensures |Frees(s.role)| + 3 * |Heads(s.role)| == NUM
  {
    hide Ring, Lists, Infos, Busy, FreeExact, Linked;
    var f, a, b, c := Frees(s.role), Heads(s.role), Seconds(s.role), Thirds(s.role);
    HeadsOf(s);
    SameSecond(s, a, b);
    SameThird(s, a, c);
    Partition(s.role);
    AllIdx(f + a + b + c);
    FourSets(f, a, b, c);
  }

  lemma HeadsOf(s: Queue)
    requires Sized(s) && Chains(s.desc, s.role)
    ensures forall i: Idx :: i in Seconds(s.role) <==> s.role[i].Second? && s.role[i].h in Heads(s.role)
    ensures forall i: Idx :: i in Thirds(s.role) <==> s.role[i].Third? && s.role[i].h in Heads(s.role)
  {
    forall i: Idx ensures (s.role[i].Second? || s.role[i].Third? ==> s.role[i].h in Heads(s.role)) {
      assert Linked(s.desc, s.role, i);
    }
  }

  lemma Partition(role: seq<Role>)
    requires |role| == NUM
    ensures var f, a, b, c := Frees(role), Heads(role), Seconds(role), Thirds(role);
      f !! a !! b !! c && forall i: Idx :: i in f + a + b + c
  {
  }

  lemma FourSets(f: set<Idx>, a: set<Idx>, b: set<Idx>, c: set<Idx>)
    requires f !! a !! b !! c
    ensures |f + a + b + c| == |f| + |a| + |b| + |c|
  {
  }

  lemma {:induction false} SameSecond(s: Queue, hs: set<Idx>, xs: set<Idx>)
    requires Sized(s) && Chains(s.desc, s.role) && hs <= Heads(s.role) && xs <= Seconds(s.role)
    requires forall i: Idx :: i in xs <==> s.role[i].Second? && s.role[i].h in hs
    ensures |xs| == |hs|
  {
    if hs != {} {
      var h :| h in hs;
      assert Linked(s.desc, s.role, h);
      var d := s.role[h].d1;
      forall i: Idx | i in xs && s.role[i].h == h ensures i == d {
        assert Linked(s.desc, s.role, i);
      }
      SameSecond(s, hs - {h}, xs - {d});
    } else {
      assert forall i: Idx :: i !in xs;
    }
  }

  lemma {:induction false} SameThird(s: Queue, hs: set<Idx>, xs: set<Idx>)
    requires Sized(s) && Chains(s.desc, s.role) && hs <= Heads(s.role) && xs <= Thirds(s.role)
    requires forall i: Idx :: i in xs <==> s.role[i].Third? && s.role[i].h in hs
    ensures |xs| == |hs|
  {
    if hs != {} {
      var h :| h in hs;
      assert Linked(s.desc, s.role, h);
      var d := s.role[h].d2;
      forall i: Idx | i in xs && s.role[i].h == h ensures i == d {
        assert Linked(s.desc, s.role, i);
      }
      SameThird(s, hs - {h}, xs - {d});
    } else {
      assert forall i: Idx :: i !in xs;
    }
  }

  lemma AllIdx(a: set<Idx>)
    ensures |a| <= NUM && ((forall i: Idx :: i in a) ==> |a| == NUM)
  {
    var all: set<Idx> := {0, 1, 2, 3, 4, 5, 6, 7};
    SubsetSize(a, all);
    if forall i: Idx :: i in a {
      SubsetSize(all, a);
    }
  }

  function Elems(q: seq<Idx>): set<Idx> {
    set x: Idx | x in q
  }

  lemma {:induction false} ElemsOf(q: seq<Idx>)
    requires forall j, k :: 0 <= j < k < |q| ==> q[j] != q[k]
    ensures |Elems(q)| == |q|
  {
    if q != [] {
      var n := |q| - 1;
      ElemsOf(q[..n]);
      assert q[n] !in q[..n];
      assert Elems(q) == Elems(q[..n]) + {q[n]};
    }
  }

  /** At most two requests fit: 8 descriptors, three each. */
  lemma TwoInFlight(s: Queue)
    requires Inv(s)
    ensures |Heads(s.role)| <= 2 && |s.availQ| <= 2 && |s.usedQ| <= 2
  {
    EightDescriptors(s);
    ElemsOf(s.availQ);
    ElemsOf(s.usedQ);
    SubsetSize(Elems(s.availQ), Heads(s.role));
    SubsetSize(Elems(s.usedQ), Heads(s.role));
  }

  // ---- the rings ----

  /** Adding at the writer's end: with room, nothing unread is overwritten. */
  lemma RingPush(ring: seq<Idx>, start: nat, idx: nat, q: seq<Idx>, h: Idx)
    requires Ring(ring, start, idx, q) && |q| < NUM
    ensures Ring(ring[idx % NUM := h], start, (idx + 1) % WRAP, q + [h])
  {
    SlotOf(start, |q|);
    var r := ring[idx % NUM := h];
    forall k | 0 <= k < |q| + 1 ensures r[(start + k) % NUM] == (q + [h])[k] {
      if k < |q| {
        Distinct(start, k, |q|);
      }
    }
  }

  /** Taking at the reader's end gives the oldest entry. */
  lemma RingPop(ring: seq<Idx>, start: nat, idx: nat, q: seq<Idx>)
    requires Ring(ring, start, idx, q)
    ensures q == [] <==> start == idx
    ensures q != [] ==> ring[start % NUM] == q[0] && Ring(ring, (start + 1) % WRAP, idx, q[1..])
  {
    if q != [] {
      var s1 := (start + 1) % WRAP;
      assert ring[(start + 0) % NUM] == q[0];
      forall k | 0 <= k < |q| - 1 ensures ring[(s1 + k) % NUM] == q[1..][k] {
        assert ring[(start + (k + 1)) % NUM] == q[k + 1];
        Wrapped(start, k);
      }
    }
  }

  lemma SlotOf(start: nat, n: nat)
    requires start < WRAP && n <= NUM
    ensures ((start + n) % WRAP) % NUM == (start + n) % NUM
    ensures ((start + n) % WRAP + 1) % WRAP == (start + n + 1) % WRAP
  {
  }

  lemma Distinct(start: nat, j: nat, k: nat)
    requires j < k < NUM
    ensures (start + j) % NUM != (start + k) % NUM
  {
  }

  lemma Wrapped(start: nat, k: nat)
    requires start < WRAP && k < NUM
    ensures ((start + 1) % WRAP + k) % NUM == (start + (k + 1)) % NUM
  {
  }

  // ---- the five things that happen to a request ----

  /** A block has two sectors of 512 bytes; the product is made in 32 bits. */
  function Sector(blockno: nat): nat {
    blockno * 2 % 0x1_0000_0000
  }

  /** virtio_disk_rw hands in a request on the free descriptors h, d1 and d2. */
  function Submitted(s: Queue, h: Idx, d1: Idx, d2: Idx, b: Buf, blockno: nat, write: bool): Queue
    requires Sized(s)
  {
    s.(free := s.free[h := false][d1 := false][d2 := false],
       desc := s.desc[h := Desc(Header(h), true, false, d1)][d1 := Desc(Data(b), true, !write, d2)]
                     [d2 := Desc(Status(h), false, true, 0)],
       ops := s.ops[h := Req(write, Sector(blockno))],
       info := s.info[h := Info(Some(b), 0xff)], busy := s.busy + {b},
       avail := s.avail[s.availIdx % NUM := h], availIdx := (s.availIdx + 1) % WRAP, availQ := s.availQ + [h],
       role := s.role[h := Head(b, write, d1, d2, Queued, 0xff)][d1 := Second(h)][d2 := Third(h)])
  }

  function InPhase(role: seq<Role>, h: Idx, ph: Phase, st: nat): seq<Role>
    requires |role| == NUM && role[h].Head?
  {
    role[h := role[h].(phase := ph, result := st)]
  }

  /** The device reads the oldest avail entry. */
  function Taken(s: Queue): Queue
    requires Sized(s) && s.availQ != [] && s.role[s.availQ[0]].Head?
  {
    s.(fetchIdx := (s.fetchIdx + 1) % WRAP, availQ := s.availQ[1..],
       role := InPhase(s.role, s.availQ[0], Fetched, 0xff))
  }

  /** The device finishes request h, in any order, well (status 0) or not. */
  function Completed(s: Queue, h: Idx, st: nat): Queue
    requires Sized(s) && s.role[h].Head?
  {
    s.(info := s.info[h := s.info[h].(status := st)], used := s.used[s.usedIdx % NUM := h],
       usedIdx := (s.usedIdx + 1) % WRAP, usedQ := s.usedQ + [h], role := InPhase(s.role, h, Finished, st))
  }

  /** The interrupt handler processes the oldest used entry, which went well. */
  function Noticed(s: Queue): Queue
    requires Sized(s) && s.usedQ != [] && s.role[s.usedQ[0]].Head?
  {
    s.(seenIdx := (s.seenIdx + 1) % WRAP, usedQ := s.usedQ[1..], busy := s.busy - {s.role[s.usedQ[0]].b},
       role := InPhase(s.role, s.usedQ[0], Seen, 0))
  }

  /** The submitter frees the chain of its finished request. */
  function Reaped(s: Queue, h: Idx): Queue
    requires Sized(s) && s.role[h].Head?
  {
    var d1, d2 := s.role[h].d1, s.role[h].d2;
    s.(info := s.info[h := s.info[h].(b := None)], desc := s.desc[h := CLEAR][d1 := CLEAR][d2 := CLEAR],
       free := s.free[h := true][d1 := true][d2 := true], role := s.role[h := Unused][d1 := Unused][d2 := Unused])
  }

  ghost predicate CanSubmit(s: Queue, h: Idx, d1: Idx, d2: Idx, b: Buf) {
    && Inv(s) && s.role[h].Unused? && s.role[d1].Unused? && s.role[d2].Unused? && h != d1 && h != d2 && d1 != d2
    && forall k: Idx :: s.role[k].Head? ==> s.role[k].b != b
  }

  lemma SubmittedInv(s: Queue, h: Idx, d1: Idx, d2: Idx, b: Buf, blockno: nat, write: bool)
    requires CanSubmit(s, h, d1, d2, b)
    ensures Inv(Submitted(s, h, d1, d2, b, blockno, write))
  {
    hide Chains, FreeExact, Ring, Lists, Infos, Busy;
    TwoInFlight(s);
    RingPush(s.avail, s.fetchIdx, s.availIdx, s.availQ, h);
    SubmitChains(s, h, d1, d2, b, blockno, write);
    SubmitLists(s, h, d1, d2, b, blockno, write);
    SubmitInfos(s, h, d1, d2, b, blockno, write);
  }

  lemma SubmitChains(s: Queue, h: Idx, d1: Idx, d2: Idx, b: Buf, blockno: nat, write: bool)
    requires CanSubmit(s, h, d1, d2, b)
    ensures var t := Submitted(s, h, d1, d2, b, blockno, write);
      Chains(t.desc, t.role) && FreeExact(t.free, t.role)
  {
    hide Ring, Lists, Infos, Busy;
    var t := Submitted(s, h, d1, d2, b, blockno, write);
    forall i: Idx ensures Linked(t.desc, t.role, i) {
      assert Linked(s.desc, s.role, i);
    }
  }

  lemma SubmitLists(s: Queue, h: Idx, d1: Idx, d2: Idx, b: Buf, blockno: nat, write: bool)
    requires CanSubmit(s, h, d1, d2, b)
    ensures var t := Submitted(s, h, d1, d2, b, blockno, write);
      Lists(t.availQ, t.role, Queued) && Lists(t.usedQ, t.role, Finished)
  {
  }

  lemma SubmitInfos(s: Queue, h: Idx, d1: Idx, d2: Idx, b: Buf, blockno: nat, write: bool)
    requires CanSubmit(s, h, d1, d2, b)
    ensures var t := Submitted(s, h, d1, d2, b, blockno, write);
      Infos(t.info, t.role) && Busy(t.busy, t.role)
  {
  }

  /** Only the phase of one request changes. */
  lemma PhaseKeeps(s: Queue, h: Idx, ph: Phase, st: nat)
    requires Inv(s) && s.role[h].Head?
    ensures Chains(s.desc, InPhase(s.role, h, ph, st)) && FreeExact(s.free, InPhase(s.role, h, ph, st))
  {
    hide Ring, Infos, Busy, Lists;
    forall i: Idx ensures Linked(s.desc, InPhase(s.role, h, ph, st), i) {
      assert Linked(s.desc, s.role, i);
    }
  }

  lemma ListsSame(q: seq<Idx>, role: seq<Role>, ph: Phase, h: Idx, to: Phase, st: nat)
    requires |role| == NUM && Lists(q, role, ph) && role[h].Head? && role[h].phase != ph && to != ph
    ensures Lists(q, InPhase(role, h, to, st), ph)
  {
  }

  lemma ListsPop(q: seq<Idx>, role: seq<Role>, ph: Phase, to: Phase, st: nat)
    requires |role| == NUM && Lists(q, role, ph) && q != [] && to != ph
    ensures Lists(q[1..], InPhase(role, q[0], to, st), ph)
  {
  }

  lemma ListsPush(q: seq<Idx>, role: seq<Role>, ph: Phase, h: Idx, st: nat)
    requires |role| == NUM && Lists(q, role, ph) && role[h].Head? && role[h].phase != ph
    ensures Lists(q + [h], InPhase(role, h, ph, st), ph)
  {
  }

  lemma Oldest(q: seq<Idx>, role: seq<Role>, ph: Phase)
    requires |role| == NUM && Lists(q, role, ph) && q != []
    ensures role[q[0]].Head? && role[q[0]].phase == ph
  {
  }

  lemma TakenInv(s: Queue)
    requires Inv(s) && s.availQ != []
    ensures s.role[s.availQ[0]].Head? && Inv(Taken(s))
  {
    Oldest(s.availQ, s.role, Queued);
    var h := s.availQ[0];
    PhaseKeeps(s, h, Fetched, 0xff);
    RingPop(s.avail, s.fetchIdx, s.availIdx, s.availQ);
    ListsPop(s.availQ, s.role, Queued, Fetched, 0xff);
    ListsSame(s.usedQ, s.role, Finished, h, Fetched, 0xff);
    hide Chains, Ring, Lists, FreeExact;
  }

  lemma CompletedInv(s: Queue, h: Idx, st: nat)
    requires Inv(s) && s.role[h].Head? && s.role[h].phase.Fetched?
    ensures Inv(Completed(s, h, st))
  {
    TwoInFlight(s);
    PhaseKeeps(s, h, Finished, st);
    RingPush(s.used, s.seenIdx, s.usedIdx, s.usedQ, h);
    ListsPush(s.usedQ, s.role, Finished, h, st);
    ListsSame(s.availQ, s.role, Queued, h, Finished, st);
    hide Chains, Ring, Lists, FreeExact;
  }

  lemma NoticedInv(s: Queue)
    requires Inv(s) && s.usedQ != []
    ensures s.role[s.usedQ[0]].Head?
    ensures s.info[s.usedQ[0]] == Info(Some(s.role[s.usedQ[0]].b), s.role[s.usedQ[0]].result)
    ensures s.role[s.usedQ[0]].result == 0 ==> Inv(Noticed(s))
  {
    Oldest(s.usedQ, s.role, Finished);
    var h := s.usedQ[0];
    PhaseKeeps(s, h, Seen, 0);
    RingPop(s.used, s.seenIdx, s.usedIdx, s.usedQ);
    ListsPop(s.usedQ, s.role, Finished, Seen, 0);
    ListsSame(s.availQ, s.role, Queued, h, Seen, 0);
    hide Chains, Ring, Lists, FreeExact;
  }

  lemma ReapedInv(s: Queue, h: Idx)
    requires Inv(s) && s.role[h].Head? && s.role[h].phase.Seen?
    ensures Inv(Reaped(s, h))
  {
    hide Chains, FreeExact, Ring, Lists, Infos, Busy;
    ReapChains(s, h);
    ReapLists(s, h);
  }

  lemma ReapChains(s: Queue, h: Idx)
    requires Inv(s) && s.role[h].Head?
    ensures Chains(Reaped(s, h).desc, Reaped(s, h).role) && FreeExact(Reaped(s, h).free, Reaped(s, h).role)
  {
    hide Ring, Lists, Infos, Busy;
    var t := Reaped(s, h);
    assert Linked(s.desc, s.role, h);
    forall i: Idx ensures Linked(t.desc, t.role, i) {
      assert Linked(s.desc, s.role, i);
    }
  }

  lemma ReapLists(s: Queue, h: Idx)
    requires Inv(s) && s.role[h].Head? && s.role[h].phase.Seen?
    ensures var t := Reaped(s, h);
      && Lists(t.availQ, t.role, Queued) && Lists(t.usedQ, t.role, Finished)
      && Infos(t.info, t.role) && Busy(t.busy, t.role)
  {
    assert Linked(s.desc, s.role, h);
    hide Ring, Chains, FreeExact;
  }
}
