/** The virtio disk driver of kernel/virtio_disk.c and the device it talks to.
    Each method is one turn under vdisk_lock, or one move of the device; they may
    be called in any order. */
module VirtioDisk {
  import opened Common
  import opened VirtioQueue

  /** The free flags without the descriptors in idx. */
  function Without(free: seq<bool>, idx: seq<Idx>): (r: seq<bool>)
    requires |free| == NUM
    ensures |r| == NUM
  {
    seq(NUM, k requires 0 <= k < NUM => free[k] && k !in idx)
  }

  ghost predicate AllFree(free: seq<bool>, idx: seq<Idx>)
    requires |free| == NUM
  {
    && (forall k :: 0 <= k < |idx| ==> free[idx[k]])
    && (forall j, k :: 0 <= j < k < |idx| ==> idx[j] != idx[k])
  }

  lemma WithoutNone(free: seq<bool>)
    requires |free| == NUM
    ensures Without(free, []) == free
  {
  }

  lemma NoneLeft(free: seq<bool>, idx: seq<Idx>)
    requires |free| == NUM && forall k: Idx :: !Without(free, idx)[k]
    ensures forall k: Idx :: free[k] ==> k in idx
  {
    forall k: Idx | free[k] ensures k in idx {
      assert !Without(free, idx)[k];
    }
  }

  lemma WithoutMore(free: seq<bool>, idx: seq<Idx>, i: Idx)
    requires |free| == NUM && AllFree(free, idx) && Without(free, idx)[i]
    ensures AllFree(free, idx + [i]) && Without(free, idx)[i := false] == Without(free, idx + [i])
  {
  }

  lemma WithoutLess(free: seq<bool>, idx: seq<Idx>, j: nat)
    requires |free| == NUM && AllFree(free, idx) && j < |idx|
    ensures !Without(free, idx[j..])[idx[j]] && Without(free, idx[j..])[idx[j] := true] == Without(free, idx[j + 1..])
  {
  }

  lemma WithoutThree(now: seq<bool>, free: seq<bool>, idx: seq<Idx>)
    requires |free| == NUM && |idx| == 3 && now == Without(free, idx)
    ensures now == free[idx[0] := false][idx[1] := false][idx[2] := false]
  {
  }

  /** Fewer than three free descriptors; clearing free ones hurts no chain. */
  lemma NoRoom(s0: Queue, s: Queue, idx: seq<Idx>)
    requires Inv(s0) && |idx| < 3 && s == s0.(desc := s.desc) && |s.desc| == NUM
    requires forall k: Idx :: s0.free[k] ==> k in idx
    requires forall k: Idx :: !s0.free[k] ==> s.desc[k] == s0.desc[k]
    ensures Inv(s) && |Frees(s.role)| < 3
  {
    forall i: Idx ensures Linked(s.desc, s.role, i) {
      assert Linked(s0.desc, s0.role, i);
    }
    hide Ring, Lists, Infos, Busy, Chains;
    FewElems(Frees(s.role), idx);
  }

  lemma FewElems(a: set<Idx>, idx: seq<Idx>)
    requires |idx| < 3 && forall x :: x in a ==> x in idx
    ensures |a| < 3
  {
    var e: set<Idx> := if idx == [] then {} else if |idx| == 1 then {idx[0]} else {idx[0], idx[1]};
    SubsetSize(a, e);
  }

  lemma RingSize(ring: seq<Idx>, start: nat, idx: nat, q: seq<Idx>)
    requires Ring(ring, start, idx, q)
    ensures |ring| == NUM
  {
  }

  lemma NotBusy(s: Queue, h: Idx)
    requires Inv(s) && s.role[h].Head? && s.role[h].b !in s.busy
    ensures s.role[h].phase.Seen?
  {
  }

  lemma ChainOf(s: Queue, h: Idx)
    requires Inv(s) && s.role[h].Head?
    ensures var d1, d2 := s.role[h].d1, s.role[h].d2;
      !s.free[h] && !s.free[d1] && !s.free[d2] && h != d1 && h != d2 && d1 != d2 &&
      s.desc[h].more && s.desc[h].next == d1 && s.desc[d1].more && s.desc[d1].next == d2 && !s.desc[d2].more
  {
    assert Linked(s.desc, s.role, h);
    assert Linked(s.desc, s.role, s.role[h].d1);
    assert Linked(s.desc, s.role, s.role[h].d2);
  }

  /** A request as the tables show it: header, data of its buffer, status. */
  lemma ChainRaw(s: Queue, h: Idx)
    requires Inv(s) && s.role[h].Head?
    ensures s.desc[h].addr == Header(h) && s.desc[h].more && !s.desc[h].write && s.info[h].b == Some(s.role[h].b)
    ensures var data := s.desc[s.desc[h].next];
      && data.addr == Data(s.role[h].b) && data.more && data.write == !s.role[h].write
      && s.desc[data.next] == Desc(Status(h), false, true, 0)
  {
    assert Linked(s.desc, s.role, h);
    assert Linked(s.desc, s.role, s.role[h].d1);
    assert Linked(s.desc, s.role, s.role[h].d2);
  }

  /** The device reported an error for request h. */
  ghost predicate Bad(s: Queue, h: Idx) {
    |s.role| == NUM && s.role[h].Head? && s.role[h].result != 0
  }

  /** The requests of a list of reports. */
  function Ids(reports: seq<(Idx, nat)>): (ids: seq<Idx>)
    ensures |ids| == |reports|
  {
    seq(|reports|, k requires 0 <= k < |reports| => reports[k].0)
  }

  /** Which reports of a list the device makes, from s on: those for requests it
      has then, the first one for each. */
  ghost function Arrivals(s: Queue, finishing: seq<(Idx, nat)>): seq<(Idx, nat)>
    requires |s.role| == NUM
    decreases |finishing|
  {
    if finishing == [] then [] else
    var rest, r := Arrivals(s, finishing[..|finishing| - 1]), finishing[|finishing| - 1];
    if s.role[r.0].Head? && s.role[r.0].phase.Fetched? && r.0 !in Ids(rest) then rest + [r] else rest
  }

  /** From s to t the device has finished the requests in arrived, with the
      results given there, and the handler has consumed those in seen, all of
      which went well: their buffers, and no others, have been told. Nothing else
      happened to any request. */
  ghost predicate Told(s: Queue, t: Queue, seen: seq<Idx>, arrived: seq<(Idx, nat)>) {
    && |s.role| == NUM && |t.role| == NUM
    && (forall h: Idx :: !s.role[h].Head? ==> t.role[h] == s.role[h])
    && (forall h: Idx :: s.role[h].Head? && h !in Ids(arrived) ==>
          t.role[h] == s.role[h].(phase := if h in seen then Seen else s.role[h].phase))
    && (forall k :: 0 <= k < |arrived| ==> Reported(s, t, seen, arrived[k]))
    && (forall h :: h in seen ==> t.role[h].Head? && t.role[h].result == 0)
    && (forall h :: h in seen && h !in Ids(arrived) ==> s.role[h].phase.Finished?)
    && (forall b :: b in t.busy <==> b in s.busy && forall h :: h in seen && s.role[h].Head? ==> s.role[h].b != b)
  }

  ghost predicate Reported(s: Queue, t: Queue, seen: seq<Idx>, r: (Idx, nat))
    requires |s.role| == NUM && |t.role| == NUM
  {
    && s.role[r.0].Head? && s.role[r.0].phase.Fetched?
    && t.role[r.0] == s.role[r.0].(phase := if r.0 in seen then Seen else Finished, result := r.1)
  }

  lemma IdsMore(reports: seq<(Idx, nat)>, r: (Idx, nat))
    ensures Ids(reports + [r]) == Ids(reports) + [r.0]
  {
  }

  lemma NoArrivals(s: Queue, finishing: seq<(Idx, nat)>)
    requires |s.role| == NUM
    ensures Arrivals(s, finishing[..0]) == [] && Ids([]) == []
  {
  }

  lemma ArrivalsMore(s: Queue, finishing: seq<(Idx, nat)>, k: nat)
    requires |s.role| == NUM && k < |finishing|
    ensures Arrivals(s, finishing[..k + 1]) ==
              var rest, r := Arrivals(s, finishing[..k]), finishing[k];
              if s.role[r.0].Head? && s.role[r.0].phase.Fetched? && r.0 !in Ids(rest) then rest + [r] else rest
  {
    assert finishing[..k + 1][..k] == finishing[..k];
  }

  lemma JoinRight(a: seq<Idx>, b: seq<Idx>, c: seq<Idx>, d: seq<Idx>, e: seq<Idx>)
    requires a + b == c + d
    ensures a + (b + e) == c + (d + e)
  {
    assert a + (b + e) == (a + b) + e;
    assert c + (d + e) == (c + d) + e;
  }

  /** The used entries of s and those that arrived after it are, in order, the
      ones consumed and those of t. */
  ghost predicate InOrder(s: Queue, t: Queue, seen: seq<Idx>, arrived: seq<(Idx, nat)>) {
    s.usedQ + Ids(arrived) == seen + t.usedQ
  }

  lemma MoveLeft(a: seq<Idx>, q: seq<Idx>)
    requires q != []
    ensures a + q == a + [q[0]] + q[1..]
  {
  }

  lemma TellNone(s: Queue)
    requires |s.role| == NUM
    ensures Told(s, s, [], []) && InOrder(s, s, [], [])
  {
  }

  /** The device has h exactly if it had it at first and has not reported it. */
  lemma StillHas(s0: Queue, s: Queue, seen: seq<Idx>, arrived: seq<(Idx, nat)>, h: Idx)
    requires Told(s0, s, seen, arrived)
    ensures s.role[h].Head? && s.role[h].phase.Fetched? <==>
            s0.role[h].Head? && s0.role[h].phase.Fetched? && h !in Ids(arrived)
  {
    if h in Ids(arrived) {
      var k :| 0 <= k < |arrived| && arrived[k].0 == h;
      assert Reported(s0, s, seen, arrived[k]);
    }
  }

  lemma TellLater(s0: Queue, s: Queue, seen: seq<Idx>, arrived: seq<(Idx, nat)>, h: Idx, st: nat)
    requires Told(s0, s, seen, arrived) && Sized(s) && s.role[h].Head? && s.role[h].phase.Fetched?
    ensures Told(s0, Completed(s, h, st), seen, arrived + [(h, st)])
  {
    StillHas(s0, s, seen, arrived, h);
    IdsMore(arrived, (h, st));
    var t := Completed(s, h, st);
    forall k | 0 <= k < |arrived| ensures Reported(s0, t, seen, arrived[k]) {
      assert Reported(s0, s, seen, arrived[k]);
      assert Ids(arrived)[k] == arrived[k].0;
    }
    assert h !in seen;
    assert Reported(s0, t, seen, (h, st));
  }

  lemma TellOne(s0: Queue, s: Queue, seen: seq<Idx>, arrived: seq<(Idx, nat)>)
    requires Told(s0, s, seen, arrived) && Sized(s) && s.usedQ != [] && s.role[s.usedQ[0]].Head?
    requires s.role[s.usedQ[0]].phase.Finished? && s.role[s.usedQ[0]].result == 0
    ensures Told(s0, Noticed(s), seen + [s.usedQ[0]], arrived)
  {
    var h, t := s.usedQ[0], Noticed(s);
    forall k | 0 <= k < |arrived| ensures Reported(s0, t, seen + [h], arrived[k]) {
      assert Reported(s0, s, seen, arrived[k]);
    }
    if h in Ids(arrived) {
      var k :| 0 <= k < |arrived| && arrived[k].0 == h;
      assert Reported(s0, s, seen, arrived[k]);
    }
  }

  class VirtioDisk {
    var s: Queue

    constructor ()
      ensures Inv(s) && s.availQ == [] && forall i: Idx :: s.free[i]
    {
      s := Queue(seq(NUM, _ => true), seq(NUM, _ => CLEAR), seq(NUM, _ => 0), 0, 0, seq(NUM, _ => 0), 0, 0,
                 seq(NUM, _ => Info(None, 0)), seq(NUM, _ => Req(false, 0)), {}, seq(NUM, _ => Unused), [], []);
    }

    /** Takes the lowest free descriptor; -1 exactly when there is none. */
    method AllocDesc() returns (i: int)
      requires Sized(s)
      modifies this
      ensures -1 <= i < NUM && (i == -1 <==> forall k: Idx :: !old(s).free[k])
      ensures i == -1 ==> s == old(s)
      ensures i >= 0 ==> old(s).free[i] && (forall k: Idx :: k < i ==> !old(s).free[k])
      ensures i >= 0 ==> s == old(s).(free := old(s).free[i := false])
    {
      i := 0;
      while i < NUM
        invariant 0 <= i <= NUM && s == old(s) && forall k: Idx :: k < i ==> !s.free[k]
      {
        if s.free[i] {
          s := s.(free := s.free[i := false]);
          return;
        }
        i := i + 1;
      }
      i := -1;
    }

    /** Frees descriptor i; panics exactly when i is not one, or already free. */
    method FreeDesc(i: nat) returns (panicked: bool)
      requires Sized(s)
      modifies this
      ensures panicked <==> i >= NUM || old(s).free[i]
      ensures panicked ==> s == old(s)
      ensures !panicked ==> s == old(s).(desc := old(s).desc[i := CLEAR], free := old(s).free[i := true])
    {
      if i >= NUM || s.free[i] {
        return true;
      }
      s := s.(desc := s.desc[i := CLEAR], free := s.free[i := true]);
      return false;
    }

    /** Three different free descriptors, or none and nothing taken: exactly
        when fewer than three are free. */
    method Alloc3() returns (ok: bool, idx: seq<Idx>)
      requires Sized(s)
      modifies this
      ensures ok ==> |idx| == 3 && AllFree(old(s).free, idx) && s == old(s).(free := Without(old(s).free, idx))
      ensures !ok ==> |idx| < 3 && AllFree(old(s).free, idx) && forall k: Idx :: old(s).free[k] ==> k in idx
      ensures !ok ==> s == old(s).(desc := s.desc) && Sized(s)
      ensures !ok ==> forall k: Idx :: !old(s).free[k] ==> s.desc[k] == old(s).desc[k]
    {
      idx := [];
      WithoutNone(s.free);
      while |idx| < 3
        invariant |idx| <= 3 && AllFree(old(s).free, idx) && s == old(s).(free := Without(old(s).free, idx))
        decreases 3 - |idx|
      {
        var i := AllocDesc();
        if i < 0 {
          NoneLeft(old(s).free, idx);
          UndoAlloc(idx, old(s));
          return false, idx;
        }
        WithoutMore(old(s).free, idx, i);
        idx := idx + [i];
      }
      ok := true;
    }

    /** alloc3_desc's way out: gives back what it took. */
    method UndoAlloc(idx: seq<Idx>, ghost s0: Queue)
      requires Sized(s0) && AllFree(s0.free, idx) && s == s0.(free := Without(s0.free, idx))
      modifies this
      ensures s == s0.(desc := s.desc) && Sized(s) && forall k: Idx :: !s0.free[k] ==> s.desc[k] == s0.desc[k]
    {
      var j := 0;
      while j < |idx|
        invariant 0 <= j <= |idx| && |s.desc| == NUM
        invariant s == s0.(desc := s.desc, free := Without(s0.free, idx[j..]))
        invariant forall k: Idx :: !s0.free[k] ==> s.desc[k] == s0.desc[k]
      {
        WithoutLess(s0.free, idx, j);
        var panicked := FreeDesc(idx[j]);
        j := j + 1;
      }
      assert idx[j..] == [];
      WithoutNone(s0.free);
    }

    /** virtio_disk_rw up to the notification: the request is in the avail ring,
        on a chain of its own; or there was no room, and the caller sleeps. */
    method Submit(b: Buf, blockno: nat, write: bool) returns (ok: bool, h: Idx)
      requires Inv(s) && forall k: Idx :: s.role[k].Head? ==> s.role[k].b != b
      modifies this
      ensures Inv(s)
      ensures ok ==> exists d1: Idx, d2: Idx ::
                CanSubmit(old(s), h, d1, d2, b) && s == Submitted(old(s), h, d1, d2, b, blockno, write)
      ensures ok ==>
                && s.desc[h].addr == Header(h) && s.desc[h].more && !s.desc[h].write
                && s.ops[h] == Req(write, blockno * 2 % 0x1_0000_0000) && s.info[h] == Info(Some(b), 0xff)
                && var data := s.desc[s.desc[h].next];
                && data.addr == Data(b) && data.more && data.write == !write
                && s.desc[data.next].addr == Status(h) && !s.desc[data.next].more && s.desc[data.next].write
      ensures !ok ==> s == old(s).(desc := s.desc) && |Frees(s.role)| < 3
    {
      hide Chains, Ring, Lists, Infos, Busy;
      h := 0;
      var idx;
      ok, idx := Alloc3();
      if !ok {
        NoRoom(old(s), s, idx);
        return;
      }
      h := idx[0];
      SubmittedInv(old(s), h, idx[1], idx[2], b, blockno, write);
      WithoutThree(s.free, old(s).free, idx);
      s := s.(ops := s.ops[h := Req(write, Sector(blockno))]);
      s := s.(desc := s.desc[h := Desc(Header(h), true, false, idx[1])]);
      s := s.(desc := s.desc[idx[1] := Desc(Data(b), true, !write, idx[2])]);
      s := s.(info := s.info[h := s.info[h].(status := 0xff)]);
      s := s.(desc := s.desc[idx[2] := Desc(Status(h), false, true, 0)]);
      s := s.(busy := s.busy + {b}, info := s.info[h := s.info[h].(b := Some(b))]);
      s := s.(avail := s.avail[s.availIdx % NUM := h]);
      s := s.(availIdx := (s.availIdx + 1) % WRAP, availQ := s.availQ + [h],
              role := s.role[h := Head(b, write, idx[1], idx[2], Queued, 0xff)]
                            [idx[1] := Second(h)][idx[2] := Third(h)]);
      assert s == Submitted(old(s), h, idx[1], idx[2], b, blockno, write);
    }

    /** The device reads the next avail entry, if there is one: always the
        oldest request that it has not read. */
    method Fetch() returns (got: Option<Idx>)
      requires Inv(s)
      modifies this
      ensures Inv(s)
      ensures if old(s).availQ == [] then got == None && s == old(s)
              else got == Some(old(s).availQ[0]) && old(s).role[old(s).availQ[0]].Head? && s == Taken(old(s))
      ensures got.Some? ==>
                && s.desc[got.value].addr == Header(got.value) && s.desc[got.value].more && !s.desc[got.value].write
                && var data := s.desc[s.desc[got.value].next];
                && data.addr.Data? && data.more && s.info[got.value].b == Some(data.addr.b)
                && s.desc[data.next] == Desc(Status(got.value), false, true, 0)
    {
      hide Chains, Ring, Lists, Infos, Busy, FreeExact;
      RingPop(s.avail, s.fetchIdx, s.availIdx, s.availQ);
      if s.fetchIdx == s.availIdx {
        return None;
      }
      TakenInv(s);
      RingSize(s.avail, s.fetchIdx, s.availIdx, s.availQ);
      var h := s.avail[s.fetchIdx % NUM];
      s := s.(fetchIdx := (s.fetchIdx + 1) % WRAP, availQ := s.availQ[1..], role := InPhase(s.role, h, Fetched, 0xff));
      ChainRaw(s, h);
      return Some(h);
    }

    /** The device finishes a request it has, in any order, and reports how it
        went. */
    method Finish(h: Idx, st: nat)
      requires Inv(s) && s.role[h].Head? && s.role[h].phase.Fetched?
      modifies this
      ensures Inv(s) && s == Completed(old(s), h, st)
    {
      CompletedInv(s, h, st);
      s := s.(info := s.info[h := s.info[h].(status := st)], used := s.used[s.usedIdx % NUM := h]);
      s := s.(usedIdx := (s.usedIdx + 1) % WRAP, usedQ := s.usedQ + [h], role := InPhase(s.role, h, Finished, st));
    }

    /** One turn of the interrupt handler's loop: the oldest used entry, if any,
        is consumed, and exactly the buffer of the request that finished is no
        longer busy. It panics exactly if the device reported an error for that
        request. */
    method Notice() returns (any: bool, panicked: bool)
      requires Inv(s)
      modifies this
      ensures Inv(s) && (any <==> old(s).usedQ != [])
      ensures any ==> old(s).role[old(s).usedQ[0]].Head? && (panicked <==> old(s).role[old(s).usedQ[0]].result != 0)
      ensures !any ==> !panicked
      ensures s == if any && !panicked then Noticed(old(s)) else old(s)
    {
      hide Chains, Ring, Lists, Infos, Busy, FreeExact;
      RingPop(s.used, s.seenIdx, s.usedIdx, s.usedQ);
      if s.seenIdx == s.usedIdx {
        return false, false;
      }
      NoticedInv(s);
      RingSize(s.used, s.seenIdx, s.usedIdx, s.usedQ);
      var id := s.used[s.seenIdx % NUM];
      if s.info[id].status != 0 {
        return true, true;
      }
      s := s.(busy := s.busy - {s.info[id].b.value});
      s := s.(seenIdx := (s.seenIdx + 1) % WRAP, usedQ := s.usedQ[1..], role := InPhase(s.role, id, Seen, 0));
      return true, false;
    }

    /** The device makes report k of finishing now, if it has the request. */
    method Arrive(finishing: seq<(Idx, nat)>, k: nat, ghost s0: Queue, ghost seen: seq<Idx>,
                  ghost arrived: seq<(Idx, nat)>)
      returns (ghost all: seq<(Idx, nat)>)
      requires Inv(s) && Told(s0, s, seen, arrived) && InOrder(s0, s, seen, arrived)
      requires k < |finishing| && |s0.role| == NUM && arrived == Arrivals(s0, finishing[..k])
      modifies this
      ensures Inv(s) && s.free == old(s).free && s.availQ == old(s).availQ && s.ops == old(s).ops
      ensures Told(s0, s, seen, all) && InOrder(s0, s, seen, all) && all == Arrivals(s0, finishing[..k + 1])
    {
      hide Chains, Ring, Lists, Infos, Busy, FreeExact, Told, Arrivals;
      ArrivalsMore(s0, finishing, k);
      var h, st := finishing[k].0, finishing[k].1;
      StillHas(s0, s, seen, arrived, h);
      all := arrived;
      if s.role[h].Head? && s.role[h].phase.Fetched? {
        TellLater(s0, s, seen, arrived, h, st);
        IdsMore(arrived, (h, st));
        JoinRight(s0.usedQ, Ids(arrived), seen, s.usedQ, [h]);
        Finish(h, st);
        all := arrived + [(h, st)];
      }
    }

    /** A turn of the handler's loop, with the requests seen before it. */
    method NoticeNext(ghost s0: Queue, ghost seen: seq<Idx>, ghost arrived: seq<(Idx, nat)>)
      returns (any: bool, panicked: bool)
      requires Inv(s) && Told(s0, s, seen, arrived) && InOrder(s0, s, seen, arrived)
      modifies this
      ensures Inv(s) && s.free == old(s).free && s.availQ == old(s).availQ && s.ops == old(s).ops
      ensures (any <==> old(s).usedQ != []) && (any ==> (panicked <==> Bad(old(s), old(s).usedQ[0])))
      ensures !any ==> !panicked
      ensures any && !panicked ==> s.usedQ == old(s).usedQ[1..]
      ensures any && !panicked ==>
                Told(s0, s, seen + [old(s).usedQ[0]], arrived) && InOrder(s0, s, seen + [old(s).usedQ[0]], arrived)
      ensures !any || panicked ==> s == old(s)
    {
      hide Chains, Ring, Infos, Busy, FreeExact, Told;
      any, panicked := Notice();
      if any && !panicked {
        TellOne(s0, old(s), seen, arrived);
        MoveLeft(seen, old(s).usedQ);
      }
    }

    /** virtio_disk_intr, while the device goes on finishing requests: before
        each turn it may make the next report of finishing. The used entries are
        consumed in order, each once, until there is none or one that the device
        reported an error for; then it panics. Exactly the buffers of the
        requests consumed are no longer busy. The requests that arrive are those
        that the reports made are for, each with the result reported for it. */
    method Intr(finishing: seq<(Idx, nat)>)
      returns (panicked: bool, made: nat, ghost seen: seq<Idx>, ghost arrived: seq<(Idx, nat)>)
      requires Inv(s)
      modifies this
      ensures Inv(s) && s.free == old(s).free && s.availQ == old(s).availQ && s.ops == old(s).ops
      ensures made <= |finishing| && (made == 0 ==> finishing == []) && arrived == Arrivals(old(s), finishing[..made])
      ensures Told(old(s), s, seen, arrived) && InOrder(old(s), s, seen, arrived)
      ensures if panicked then s.usedQ != [] && Bad(s, s.usedQ[0]) else s.usedQ == []
    {
      TellNone(s);
      hide *;
      seen, arrived, panicked, made := [], [], false, 0;
      NoArrivals(s, finishing);
      var any := true;
      while any && !panicked
        invariant Inv(s) && s.free == old(s).free && s.availQ == old(s).availQ && s.ops == old(s).ops
        invariant Told(old(s), s, seen, arrived) && InOrder(old(s), s, seen, arrived)
        invariant made <= |finishing| && arrived == Arrivals(old(s), finishing[..made])
        invariant made == 0 && finishing != [] ==> any && !panicked
        invariant panicked ==> s.usedQ != [] && Bad(s, s.usedQ[0])
        invariant !any ==> s.usedQ == [] && !panicked
        decreases |finishing| - made, |s.usedQ|, any && !panicked
      {
        if made < |finishing| {
          arrived := Arrive(finishing, made, old(s), seen, arrived);
          made := made + 1;
        }
        ghost var q := s.usedQ;
        any, panicked := NoticeNext(old(s), seen, arrived);
        if any && !panicked {
          seen := seen + [q[0]];
        }
      }
    }

    /** virtio_disk_rw after its wait: the request's chain is freed, all three
        descriptors of it and no other. */
    method Reap(h: Idx) returns (panicked: bool)
      requires Inv(s) && s.role[h].Head? && s.role[h].b !in s.busy
      modifies this
      ensures !panicked && Inv(s) && s == Reaped(old(s), h)
    {
      NotBusy(s, h);
      ReapedInv(s, h);
      ChainOf(s, h);
      s := s.(info := s.info[h := s.info[h].(b := None)]);
      panicked := FreeChain(h, s.role[h].d1, s.role[h].d2);
      s := s.(role := s.role[h := Unused][s.role[h].d1 := Unused][s.role[h].d2 := Unused]);
    }

    /** free_chain: follows the next fields until one has none. */
    method FreeChain(h: Idx, ghost d1: Idx, ghost d2: Idx) returns (panicked: bool)
      requires Sized(s) && !s.free[h] && !s.free[d1] && !s.free[d2] && h != d1 && h != d2 && d1 != d2
      requires s.desc[h].more && s.desc[h].next == d1 && s.desc[d1].more && s.desc[d1].next == d2 && !s.desc[d2].more
      modifies this
      ensures !panicked
      ensures s == old(s).(desc := old(s).desc[h := CLEAR][d1 := CLEAR][d2 := CLEAR],
                           free := old(s).free[h := true][d1 := true][d2 := true])
    {
      var i: nat := h;
      ghost var k := 0;
      panicked := false;
      while true
        invariant 0 <= k <= 2 && i == (if k == 0 then h else if k == 1 then d1 else d2) && !panicked
        invariant k == 0 ==> s == old(s)
        invariant k == 1 ==> s == old(s).(desc := old(s).desc[h := CLEAR], free := old(s).free[h := true])
        invariant k == 2 ==> s == old(s).(desc := old(s).desc[h := CLEAR][d1 := CLEAR],
                                          free := old(s).free[h := true][d1 := true])
        decreases 3 - k
      {
        var more, next := s.desc[i].more, s.desc[i].next;
        panicked := FreeDesc(i);
        if more {
          i := next;
          k := k + 1;
        } else {
          break;
        }
      }
    }
  }

  // ---- what the device is asked for ----

  /** What a driver and a device do: a process asks for a transfer, the device
      takes the next request, or reports on one that it has, the interrupt handler
      runs, or a process collects its request. */
  datatype Event =
    | Ask(b: Buf, blockno: nat, write: bool)
    | Take
    | Report(h: Idx, st: nat)
    | Interrupt(finishing: seq<(Idx, nat)>)
    | Collect(h: Idx)

  /** A transfer as the device finds it: what the data descriptor points at,
      whether the device may write there, and the request header. */
  datatype Order = Order(addr: Addr, deviceWrites: bool, req: Req)

  /** Read off the tables, from the head of a chain on. */
  function OrderAt(s: Queue, h: Idx): Order
    requires |s.desc| == NUM && |s.ops| == NUM
  {
    var data := s.desc[s.desc[h].next];
    Order(data.addr, data.write, s.ops[h])
  }

  function Orders(s: Queue, q: seq<Idx>): (r: seq<Order>)
    requires |s.desc| == NUM && |s.ops| == NUM
    ensures |r| == |q|
  {
    seq(|q|, k requires 0 <= k < |q| => OrderAt(s, q[k]))
  }

  lemma OrderOf(s: Queue, h: Idx)
    requires Inv(s) && s.role[h].Head?
    ensures OrderAt(s, h) == Order(Data(s.role[h].b), !s.role[h].write, s.ops[h])
  {
    assert Linked(s.desc, s.role, h);
    assert Linked(s.desc, s.role, s.role[h].d1);
  }

  /** The requests that wait in the avail ring are as they were. */
  lemma OrdersSame(s: Queue, t: Queue)
    requires Inv(s) && Inv(t) && t.availQ == s.availQ
    requires forall h: Idx :: h in s.availQ ==> s.role[h].Head? && t.role[h].Head? && t.ops[h] == s.ops[h]
    requires forall h: Idx :: h in s.availQ ==> t.role[h].b == s.role[h].b && t.role[h].write == s.role[h].write
    ensures Orders(t, t.availQ) == Orders(s, s.availQ)
  {
    hide Inv, OrderAt;
    InvSized(s);
    InvSized(t);
    forall k | 0 <= k < |s.availQ| ensures OrderAt(t, t.availQ[k]) == OrderAt(s, s.availQ[k]) {
      OrderOf(s, s.availQ[k]);
      OrderOf(t, t.availQ[k]);
    }
  }

  lemma InvSized(s: Queue)
    requires Inv(s)
    ensures Sized(s) && forall h: Idx :: h in s.availQ ==> s.role[h].Head? && s.role[h].phase.Queued?
  {
  }

  lemma AskOrders(s: Queue, t: Queue, h: Idx, d1: Idx, d2: Idx, b: Buf, blockno: nat, write: bool)
    requires CanSubmit(s, h, d1, d2, b) && t == Submitted(s, h, d1, d2, b, blockno, write) && Inv(t)
    ensures Sized(s) && Sized(t)
    ensures Orders(t, t.availQ) == Orders(s, s.availQ) + [Order(Data(b), !write, Req(write, Sector(blockno)))]
  {
    hide Chains, Ring, Lists, Infos, Busy, FreeExact, OrderAt;
    InvSized(s);
    forall k | 0 <= k < |s.availQ| ensures OrderAt(t, t.availQ[k]) == OrderAt(s, s.availQ[k]) {
      assert s.availQ[k] in s.availQ;
      OrderOf(s, s.availQ[k]);
      OrderOf(t, t.availQ[k]);
    }
    OrderOf(t, h);
  }

  lemma TakeOrders(s: Queue, t: Queue)
    requires Inv(s) && s.availQ != [] && s.role[s.availQ[0]].Head? && t == Taken(s) && Inv(t)
    ensures Sized(s) && Sized(t) && OrderAt(t, s.availQ[0]) == OrderAt(s, s.availQ[0])
    ensures Orders(s, s.availQ) == [OrderAt(s, s.availQ[0])] + Orders(t, t.availQ)
  {
    hide Chains, Ring, Lists, Infos, Busy, FreeExact;
  }

  /** What was asked for is what the device took, in order, and what waits. */
  ghost predicate Serves(s: Queue, asked: seq<Order>, taken: seq<Order>) {
    Inv(s) && asked == taken + Orders(s, s.availQ)
  }

  lemma ServesSame(s: Queue, t: Queue, asked: seq<Order>, taken: seq<Order>)
    requires Serves(s, asked, taken) && Inv(t) && t.availQ == s.availQ
    requires forall h: Idx :: h in s.availQ ==> s.role[h].Head? && t.role[h].Head? && t.ops[h] == s.ops[h]
    requires forall h: Idx :: h in s.availQ ==> t.role[h].b == s.role[h].b && t.role[h].write == s.role[h].write
    ensures Serves(t, asked, taken)
  {
    hide Inv;
    OrdersSame(s, t);
  }

  lemma ToldRoles(s: Queue, t: Queue, seen: seq<Idx>, arrived: seq<(Idx, nat)>, h: Idx)
    requires Told(s, t, seen, arrived) && s.role[h].Head?
    ensures t.role[h].Head? && t.role[h].b == s.role[h].b && t.role[h].write == s.role[h].write
  {
    if h in Ids(arrived) {
      var k :| 0 <= k < |arrived| && arrived[k].0 == h;
      assert Reported(s, t, seen, arrived[k]);
    }
  }

  lemma StartServes(s: Queue)
    requires Inv(s) && s.availQ == []
    ensures Serves(s, [], [])
  {
  }

  /** The transfer that event e asks for. */
  predicate Asks(e: Event, o: Order) {
    e.Ask? && o == Order(Data(e.b), !e.write, Req(e.write, e.blockno * 2 % 0x1_0000_0000))
  }

  /** Transfer k was asked for by event which[k], one of the first n; later
      transfers by later events. */
  ghost predicate AskedBy(events: seq<Event>, which: seq<nat>, asked: seq<Order>, n: nat) {
    && |which| == |asked| && n <= |events|
    && (forall k :: 0 <= k < |which| ==> which[k] < n && Asks(events[which[k]], asked[k]))
    && (forall j, k :: 0 <= j < k < |which| ==> which[j] < which[k])
  }

  lemma AskedNone(events: seq<Event>)
    ensures AskedBy(events, [], [], 0)
  {
  }

  lemma AskedMore(events: seq<Event>, which: seq<nat>, asked: seq<Order>, n: nat)
    requires AskedBy(events, which, asked, n) && n < |events|
    ensures AskedBy(events, which, asked, n + 1)
    ensures forall o :: Asks(events[n], o) ==> AskedBy(events, which + [n], asked + [o], n + 1)
  {
  }

  lemma AskedBefore(events: seq<Event>, which: seq<nat>, asked: seq<Order>, n: nat)
    requires AskedBy(events, which, asked, n)
    ensures AskedBy(events, which, asked, |events|)
  {
  }

  /** Ask: a request of a process whose buffer has none yet. */
  method RunAsk(d: VirtioDisk, e: Event, asked: seq<Order>, taken: seq<Order>) returns (all: seq<Order>, ok: bool)
    requires e.Ask? && Serves(d.s, asked, taken) && Sized(d.s)
    modifies d
    ensures Serves(d.s, all, taken) && if ok then exists o :: all == asked + [o] && Asks(e, o) else all == asked
  {
    hide Chains, Ring, Lists, Infos, Busy, FreeExact, Submitted, Orders;
    all, ok := asked, false;
    if exists k: Idx :: d.s.role[k].Head? && d.s.role[k].b == e.b {
      return;
    }
    ghost var s := d.s;
    InvSized(s);
    var h;
    ok, h := d.Submit(e.b, e.blockno, e.write);
    if !ok {
      ServesSame(s, d.s, asked, taken);
      return;
    }
    ghost var d1: Idx, d2: Idx :|
      CanSubmit(s, h, d1, d2, e.b) && d.s == Submitted(s, h, d1, d2, e.b, e.blockno, e.write);
    AskOrders(s, d.s, h, d1, d2, e.b, e.blockno, e.write);
    var o := Order(Data(e.b), !e.write, Req(e.write, e.blockno * 2 % 0x1_0000_0000));
    assert asked + [o] == taken + (Orders(s, s.availQ) + [o]);
    all := asked + [o];
  }

  /** Take: the device reads the request off the tables. */
  method RunTake(d: VirtioDisk, ghost asked: seq<Order>, taken: seq<Order>) returns (all: seq<Order>)
    requires Serves(d.s, asked, taken) && Sized(d.s)
    modifies d
    ensures Serves(d.s, asked, all) && taken <= all
  {
    hide Chains, Ring, Lists, Infos, Busy, FreeExact, Taken, Orders, OrderAt;
    all := taken;
    ghost var s := d.s;
    var got := d.Fetch();
    InvSized(d.s);
    if got.Some? {
      TakeOrders(s, d.s);
      all := taken + [OrderAt(d.s, got.value)];
      assert asked == all + Orders(d.s, d.s.availQ);
    }
  }

  /** The other events touch no request that the device has not taken. */
  method RunOther(d: VirtioDisk, e: Event, ghost asked: seq<Order>, ghost taken: seq<Order>) returns (panicked: bool)
    requires !e.Ask? && Serves(d.s, asked, taken) && Sized(d.s)
    modifies d
    ensures Serves(d.s, asked, taken)
  {
    hide Chains, Ring, Lists, Infos, Busy, FreeExact, Orders, Told, InOrder;
    panicked := false;
    ghost var s := d.s;
    InvSized(s);
    match e {
      case Report(h, st) =>
        if d.s.role[h].Head? && d.s.role[h].phase.Fetched? {
          d.Finish(h, st);
          ServesSame(s, d.s, asked, taken);
        }
      case Interrupt(finishing) =>
        var made;
        ghost var seen, arrived;
        panicked, made, seen, arrived := d.Intr(finishing);
        forall h: Idx | h in s.availQ
          ensures s.role[h].Head? && d.s.role[h].Head?
          ensures d.s.role[h].b == s.role[h].b && d.s.role[h].write == s.role[h].write
        {
          ToldRoles(s, d.s, seen, arrived, h);
        }
        ServesSame(s, d.s, asked, taken);
      case Collect(h) =>
        if d.s.role[h].Head? && d.s.role[h].b !in d.s.busy {
          NotBusy(s, h);
          ChainOf(s, h);
          panicked := d.Reap(h);
          ReapedOthers(s, h);
          ServesSame(s, d.s, asked, taken);
        }
      case _ =>
    }
  }

  lemma ReapedOthers(s: Queue, h: Idx)
    requires Inv(s) && s.role[h].Head? && s.role[h].phase.Seen?
    ensures var t := Reaped(s, h);
      t.availQ == s.availQ && t.ops == s.ops && forall k: Idx :: k in s.availQ ==> t.role[k] == s.role[k]
  {
    hide Ring, Infos, Busy, FreeExact;
    InvSized(s);
    assert Linked(s.desc, s.role, h);
  }

  lemma ServesIs(s: Queue, asked: seq<Order>, taken: seq<Order>)
    requires Serves(s, asked, taken)
    ensures Inv(s) && Sized(s) && asked == taken + Orders(s, s.availQ)
  {
  }

  /** Any sequence of events, up to a panic: the transfers that the device finds,
      reading the tables from the heads it is given, are those that were asked
      for, in the order in which they were: each with its buffer and its sector,
      and with the device writing to memory exactly if the process did not ask to
      write the disk. Request k is that of event which[k]. Events that make no
      sense are skipped: a buffer that has a request already, a report on a
      request that the device does not have, a request whose buffer is busy. */
  method RunDisk(events: seq<Event>)
    returns (d: VirtioDisk, asked: seq<Order>, taken: seq<Order>, which: seq<nat>, panicked: bool)
    ensures fresh(d) && Inv(d.s) && taken <= asked && |asked| == |taken| + |d.s.availQ|
    ensures AskedBy(events, which, asked, |events|)
  {
    hide *;
    d := new VirtioDisk();
    asked, taken, which, panicked := [], [], [], false;
    StartServes(d.s);
    AskedNone(events);
    var n := 0;
    while n < |events| && !panicked
      invariant 0 <= n <= |events| && Serves(d.s, asked, taken) && AskedBy(events, which, asked, n)
    {
      ServesIs(d.s, asked, taken);
      AskedMore(events, which, asked, n);
      if events[n].Ask? {
        var ok;
        asked, ok := RunAsk(d, events[n], asked, taken);
        which := if ok then which + [n] else which;
      } else if events[n].Take? {
        taken := RunTake(d, asked, taken);
      } else {
        panicked := RunOther(d, events[n], asked, taken);
      }
      n := n + 1;
    }
    AskedBefore(events, which, asked, n);
    ServesIs(d.s, asked, taken);
  }
}
