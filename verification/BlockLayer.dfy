/** The buffer cache (kernel/bio.c) and the log on top of it (kernel/log.c),
    proved together: bget recycles buffers without writing them back, so a
    logged block survives only because log_write pinned its buffer. */
module BlockLayer {
  import opened Common
  import opened CrashRecovery

  const HEAD: nat := NBUF          // the list head's place in next and prev
  const ROOTDEV: nat := 1

  /** A struct buf; dev is 0 until the buffer is first used. */
  datatype Buf = Buf(dev: nat, blockno: nat, valid: bool, refcnt: nat, data: Block)

  datatype LogOutcome = Logged | TooBig | OutsideTrans

  // ---- the LRU ring ----

  /** The i-th node after the head; the head itself at either end. */
  function Node(order: seq<nat>, i: int): nat {
    if 0 <= i < |order| then order[i] else HEAD
  }

  /** next and prev link the head and the buffers of order into one ring. */
  ghost predicate Ring(next: seq<nat>, prev: seq<nat>, order: seq<nat>) {
    && |next| == NBUF + 1 && |prev| == NBUF + 1
    && (forall i :: 0 <= i <= NBUF ==> next[i] <= NBUF && prev[i] <= NBUF)
    && (forall i :: 0 <= i < |order| ==> order[i] < NBUF)
    && (forall i, j :: 0 <= i < j < |order| ==> order[i] != order[j])
    && (forall i :: -1 <= i < |order| ==> Linked(next, prev, Node(order, i), Node(order, i + 1)))
  }

  predicate Linked(next: seq<nat>, prev: seq<nat>, a: nat, b: nat) {
    a < |next| && b < |prev| && next[a] == b && prev[b] == a
  }

  function Without(order: seq<nat>, i: nat): seq<nat>
    requires i < |order|
  {
    order[..i] + order[i + 1..]
  }

  lemma RingAt(next: seq<nat>, prev: seq<nat>, order: seq<nat>, i: int)
    requires Ring(next, prev, order) && -1 <= i <= |order|
    ensures i < |order| ==> next[Node(order, i)] == Node(order, i + 1)
    ensures i >= 0 ==> prev[Node(order, i)] == Node(order, i - 1)
  {
  }

  lemma UnlinkRing(next: seq<nat>, prev: seq<nat>, order: seq<nat>, i: nat)
    requires Ring(next, prev, order) && i < |order|
    ensures var b := order[i];
      Ring(next[prev[b] := next[b]], prev[next[b] := prev[b]], Without(order, i))
  {
    var b := order[i];
    var rest := Without(order, i);
    var next', prev' := next[prev[b] := next[b]], prev[next[b] := prev[b]];
    RingAt(next, prev, order, i);
    forall j | -1 <= j < |rest|
      ensures Linked(next', prev', Node(rest, j), Node(rest, j + 1))
    {
      UnlinkAt(next, prev, order, i, j);
    }
  }

  lemma UnlinkAt(next: seq<nat>, prev: seq<nat>, order: seq<nat>, i: nat, j: int)
    requires Ring(next, prev, order) && i < |order| && -1 <= j < |order| - 1
    ensures var b, rest := order[i], Without(order, i);
      Linked(next[prev[b] := next[b]], prev[next[b] := prev[b]], Node(rest, j), Node(rest, j + 1))
  {
    var rest := Without(order, i);
    RingAt(next, prev, order, i);
    var k := if j < i then j else j + 1;
    var m := if j + 1 < i then j + 1 else j + 2;
    assert Node(rest, j) == Node(order, k);
    assert Node(rest, j + 1) == Node(order, m);
    RingAt(next, prev, order, k);
    RingAt(next, prev, order, m);
  }

  lemma PushRing(next: seq<nat>, prev: seq<nat>, order: seq<nat>, b: nat)
    requires Ring(next, prev, order) && b < NBUF && b !in order
    ensures Ring(next[b := next[HEAD]][HEAD := b], prev[b := HEAD][next[HEAD] := b], [b] + order)
  {
    var all := [b] + order;
    var next', prev' := next[b := next[HEAD]][HEAD := b], prev[b := HEAD][next[HEAD] := b];
    forall j | -1 <= j < |all|
      ensures Linked(next', prev', Node(all, j), Node(all, j + 1))
    {
      RingAt(next, prev, order, -1);
      if j >= 1 {
        assert Node(all, j) == Node(order, j - 1);
        RingAt(next, prev, order, j - 1);
        RingAt(next, prev, order, j);
      }
    }
  }

  /** b is the least recently used buffer that nobody references. */
  ghost predicate Victim(bufs: seq<Buf>, order: seq<nat>, b: nat) {
    && |bufs| == NBUF
    && (forall i :: 0 <= i < |order| ==> order[i] < NBUF)
    && exists i :: 0 <= i < |order| && order[i] == b && bufs[b].refcnt == 0
         && forall j :: i < j < |order| ==> bufs[order[j]].refcnt > 0
  }

  ghost predicate AllBusy(bufs: seq<Buf>) {
    forall i :: 0 <= i < |bufs| ==> bufs[i].refcnt > 0
  }

  // ---- the invariant of the cache ----

  /** The list holds every buffer. */
  ghost predicate Permutes(order: seq<nat>) {
    |order| == NBUF && forall b :: 0 <= b < NBUF ==> b in order
  }

  lemma MovedOnce(next: seq<nat>, prev: seq<nat>, order: seq<nat>, k: nat)
    requires Ring(next, prev, order) && Permutes(order) && k < NBUF
    ensures order[k] !in Without(order, k) && Permutes([order[k]] + Without(order, k))
  {
    forall b | 0 <= b < NBUF ensures b in [order[k]] + Without(order, k) {
      assert b in order;
    }
  }

  /** The cache, the disk under it, and what the proof keeps about them. */
  datatype Contents = Contents(
    bufs: seq<Buf>,
    disk: Disk,
    slot: map<nat, nat>,   // cached block -> its buffer
    held: seq<nat>,        // references from bread without brelse
    pinned: set<nat>,      // blocks whose buffer the log has pinned
    dirty: set<nat>,       // blocks changed in a held buffer, not yet logged or written
    view: Disk)            // the latest contents of every block
  {
    /** At most one buffer holds any block. */
    ghost predicate Slots() {
      && |bufs| == NBUF
      && (forall i :: 0 <= i < NBUF ==> bufs[i].dev == 0 || bufs[i].dev == ROOTDEV)
      && (forall i :: 0 <= i < NBUF && bufs[i].dev != 0 ==>
            bufs[i].blockno in slot && slot[bufs[i].blockno] == i)
      && (forall b :: b in slot ==>
            b < |disk| && slot[b] < NBUF && bufs[slot[b]].dev != 0 && bufs[slot[b]].blockno == b)
    }

    /** A buffer is referenced once per holder, and once more if it is pinned. */
    ghost predicate Refs() {
      && |bufs| == NBUF && |held| == NBUF
      && (forall i :: 0 <= i < NBUF && bufs[i].dev == 0 ==> held[i] == 0 && bufs[i].refcnt == 0)
      && (forall i :: 0 <= i < NBUF && bufs[i].dev != 0 ==>
            bufs[i].refcnt == held[i] + if bufs[i].blockno in pinned then 1 else 0)
    }

    /** Buffers hold the latest contents, and the disk is stale only where
        the cache is bound to keep the block. */
    ghost predicate Coherent() {
      && |bufs| == NBUF && |view| == |disk|
      && (forall i :: 0 <= i < NBUF && bufs[i].dev != 0 && bufs[i].valid ==>
            bufs[i].blockno < |view| && bufs[i].data == view[bufs[i].blockno])
      && (forall b :: 0 <= b < |disk| && view[b] != disk[b] ==> b in pinned || b in dirty)
    }

    ghost predicate Resident() {
      && |bufs| == NBUF && |held| == NBUF
      && (forall b :: b in pinned ==> b in slot && slot[b] < NBUF && bufs[slot[b]].valid)
      && (forall b :: b in dirty ==> b in slot && slot[b] < NBUF && bufs[slot[b]].valid && held[slot[b]] > 0)
    }

    ghost predicate Ok() {
      Slots() && Refs() && Coherent() && Resident()
    }

    ghost predicate Holds(i: nat) {
      i < NBUF && i < |held| && i < |bufs| && held[i] > 0 && bufs[i].valid
    }
  }

  /** Bget on a cached block. */
  function Hit(c: Contents, i: nat): Contents
    requires i < |c.bufs| && i < |c.held|
  {
    c.(bufs := c.bufs[i := c.bufs[i].(refcnt := c.bufs[i].refcnt + 1)], held := c.held[i := c.held[i] + 1])
  }

  /** Bget recycling buffer i for block b. */
  function Recycle(c: Contents, i: nat, b: nat): Contents
    requires i < |c.bufs| && i < |c.held|
  {
    c.(bufs := c.bufs[i := Buf(ROOTDEV, b, false, 1, c.bufs[i].data)],
       slot := (if c.bufs[i].dev != 0 then c.slot - {c.bufs[i].blockno} else c.slot)[b := i],
       held := c.held[i := 1])
  }

  function Load(c: Contents, i: nat): Contents
    requires i < |c.bufs| && c.bufs[i].blockno < |c.disk|
  {
    c.(bufs := c.bufs[i := c.bufs[i].(data := c.disk[c.bufs[i].blockno], valid := true)])
  }

  function Store(c: Contents, i: nat, x: Block): Contents
    requires i < |c.bufs| && c.bufs[i].blockno < |c.view|
  {
    c.(bufs := c.bufs[i := c.bufs[i].(data := x)],
       view := c.view[c.bufs[i].blockno := x],
       dirty := c.dirty + {c.bufs[i].blockno})
  }

  function WriteBack(c: Contents, i: nat): Contents
    requires i < |c.bufs| && c.bufs[i].blockno < |c.disk|
  {
    c.(disk := c.disk[c.bufs[i].blockno := c.bufs[i].data], dirty := c.dirty - {c.bufs[i].blockno})
  }

  function Drop(c: Contents, i: nat): Contents
    requires i < |c.bufs| && i < |c.held| && c.bufs[i].refcnt > 0 && c.held[i] > 0
  {
    c.(bufs := c.bufs[i := c.bufs[i].(refcnt := c.bufs[i].refcnt - 1)], held := c.held[i := c.held[i] - 1])
  }

  function Pin(c: Contents, i: nat): Contents
    requires i < |c.bufs|
  {
    c.(bufs := c.bufs[i := c.bufs[i].(refcnt := c.bufs[i].refcnt + 1)], pinned := c.pinned + {c.bufs[i].blockno})
  }

  function Unpin(c: Contents, i: nat): Contents
    requires i < |c.bufs| && c.bufs[i].refcnt > 0
  {
    c.(bufs := c.bufs[i := c.bufs[i].(refcnt := c.bufs[i].refcnt - 1)], pinned := c.pinned - {c.bufs[i].blockno})
  }

  lemma HitOk(c: Contents, b: nat)
    requires c.Ok() && b in c.slot
    ensures c.slot[b] < |c.bufs| == NBUF && |c.held| == NBUF && Hit(c, c.slot[b]).Ok()
    ensures c.bufs[c.slot[b]].blockno == b
  {
  }

  lemma RecycleOk(c: Contents, order: seq<nat>, i: nat, b: nat)
    requires c.Ok() && Victim(c.bufs, order, i) && b < |c.disk| && b !in c.slot
    ensures i < |c.bufs| == NBUF && |c.held| == NBUF && c.held[i] == 0 && c.bufs[i].refcnt == 0
    ensures Recycle(c, i, b).Ok()
  {
    RecycleSlots(c, i, b);
  }

  lemma RecycleSlots(c: Contents, i: nat, b: nat)
    requires c.Slots() && i < NBUF && i < |c.held| && b < |c.disk| && b !in c.slot
    ensures Recycle(c, i, b).Slots()
    ensures forall d :: d in c.slot && c.slot[d] != i ==>
              d in Recycle(c, i, b).slot && Recycle(c, i, b).slot[d] == c.slot[d]
  {
  }

  lemma PinnedCached(c: Contents, b: nat)
    requires c.Ok() && b in c.pinned
    ensures b in c.slot
  {
  }

  lemma Clean(c: Contents, b: nat)
    requires c.Ok() && b < |c.disk| && b !in c.pinned && b !in c.dirty
    ensures |c.view| == |c.disk| && c.view[b] == c.disk[b]
  {
  }

  lemma CachedAt(c: Contents, b: nat)
    requires c.Ok() && b in c.slot
    ensures c.slot[b] < |c.bufs| == NBUF && |c.held| == NBUF && b < |c.disk| == |c.view|
    ensures var u := c.bufs[c.slot[b]];
      u.dev != 0 && u.blockno == b && (u.valid ==> u.data == c.view[b])
  {
  }

  lemma LoadOk(c: Contents, i: nat)
    requires c.Ok() && i < NBUF && c.bufs[i].dev != 0 && !c.bufs[i].valid
    ensures c.bufs[i].blockno < |c.disk| && Load(c, i).Ok()
  {
  }

  lemma StoreOk(c: Contents, i: nat, x: Block)
    requires c.Ok() && c.Holds(i)
    ensures c.bufs[i].blockno < |c.disk| && Store(c, i, x).Ok()
  {
  }

  lemma WriteBackOk(c: Contents, i: nat)
    requires c.Ok() && c.Holds(i)
    ensures c.bufs[i].blockno < |c.disk| && WriteBack(c, i).Ok()
  {
  }

  lemma DropOk(c: Contents, i: nat)
    requires c.Ok() && i < NBUF && c.held[i] > 0 && (c.bufs[i].blockno in c.dirty ==> c.held[i] > 1)
    ensures c.bufs[i].refcnt > 0 && Drop(c, i).Ok()
  {
  }

  lemma PinOk(c: Contents, i: nat)
    requires c.Ok() && c.Holds(i) && c.bufs[i].blockno !in c.pinned
    ensures Pin(c, i).Ok()
  {
  }

  /** log_write: the block joins the transaction, once, and is pinned. */
  function Log(c: Contents, lh: seq<nat>, i: nat): Contents
    requires i < |c.bufs|
  {
    var d := if c.bufs[i].blockno in lh then c else Pin(c, i);
    d.(dirty := d.dirty - {c.bufs[i].blockno})
  }

  function Entered(lh: seq<nat>, b: nat): seq<nat> {
    if b in lh then lh else lh + [b]
  }

  lemma EnteredOnce(lh: seq<nat>, b: nat)
    requires forall i, j :: 0 <= i < j < |lh| ==> lh[i] != lh[j]
    ensures var e := Entered(lh, b);
      && (forall i, j :: 0 <= i < j < |e| ==> e[i] != e[j])
      && (forall i :: 0 <= i < |e| ==> e[i] == b || e[i] in lh)
  {
  }

  lemma LogKeepsOk(c: Contents, lh: seq<nat>, i: nat)
    requires c.Ok() && c.Holds(i) && c.pinned == Elems(lh)
    ensures Log(c, lh, i).Ok()
    ensures c.bufs[i].blockno < |c.disk|
    ensures Log(c, lh, i).pinned == Elems(Entered(lh, c.bufs[i].blockno))
  {
    if c.bufs[i].blockno !in lh {
      PinOk(c, i);
    }
  }

  /** A block may be unpinned once the disk holds its contents. */
  lemma UnpinOk(c: Contents, i: nat)
    requires c.Ok() && c.Holds(i) && c.bufs[i].blockno in c.pinned
    requires c.bufs[i].blockno < |c.disk| && c.view[c.bufs[i].blockno] == c.disk[c.bufs[i].blockno]
    ensures c.bufs[i].refcnt > 0 && Unpin(c, i).Ok()
  {
  }

  // ---- counting buffers ----

  lemma {:induction false} ImageSize(m: map<nat, nat>, dom: set<nat>)
    requires forall b :: b in dom ==> b in m
    ensures |set b | b in dom :: m[b]| <= |dom|
    decreases |dom|
  {
    if dom != {} {
      var c :| c in dom;
      ImageSize(m, dom - {c});
      assert (set b | b in dom :: m[b]) == (set b | b in dom - {c} :: m[b]) + {m[c]};
    }
  }

  lemma {:induction false} Upto(n: nat) returns (s: set<nat>)
    ensures forall i :: i in s <==> 0 <= i < n
    ensures |s| == n
  {
    if n == 0 {
      s := {};
    } else {
      s := Upto(n - 1);
      s := s + {n - 1};
    }
  }

  lemma {:induction false} ElemsSize(q: seq<nat>)
    requires forall i, j :: 0 <= i < j < |q| ==> q[i] != q[j]
    ensures |Elems(q)| == |q|
  {
    if q != [] {
      var last, rest := q[|q| - 1], q[..|q| - 1];
      ElemsSize(rest);
      assert q == rest + [last];
      assert Elems(q) == Elems(rest) + {last} && last !in Elems(rest);
    }
  }

  /** Some buffer is free while the pinned and the held ones are too few. */
  lemma FreeExists(c: Contents, busy: set<nat>)
    requires c.Ok() && |c.pinned| + |busy| < NBUF
    requires forall i :: 0 <= i < |c.held| && c.held[i] > 0 ==> i in busy
    ensures !AllBusy(c.bufs)
  {
    if AllBusy(c.bufs) {
      var all := Upto(NBUF);
      var image := set b | b in c.pinned :: c.slot[b];
      ImageSize(c.slot, c.pinned);
      forall i | i in all ensures i in busy + image {
        assert c.bufs[i].refcnt > 0;
        assert c.bufs[i].blockno in c.pinned ==> c.slot[c.bufs[i].blockno] in image;
      }
      assert |busy + image| <= |busy| + |image|;
      SubsetSize(all, busy + image);
    }
  }

  lemma {:induction false} SlotImage(c: Contents, dom: set<nat>)
    requires c.Ok() && dom <= c.slot.Keys
    ensures |set b | b in dom :: c.slot[b]| == |dom|
    decreases |dom|
  {
    if dom != {} {
      var d :| d in dom;
      SlotImage(c, dom - {d});
      var rest := set b | b in dom - {d} :: c.slot[b];
      assert (set b | b in dom :: c.slot[b]) == rest + {c.slot[d]};
      assert c.slot[d] !in rest;
    }
  }

  /** The blocks whose buffers processes hold. */
  ghost function HeldBlocks(c: Contents): set<nat>
    requires |c.bufs| == |c.held|
  {
    set i | 0 <= i < |c.held| && c.held[i] > 0 :: c.bufs[i].blockno
  }

  /** The blocks whose buffers are referenced: pinned by the log, or held. */
  ghost function InUse(c: Contents): set<nat>
    requires |c.bufs| == |c.held|
  {
    c.pinned + HeldBlocks(c)
  }

  lemma UsedCached(c: Contents)
    requires c.Ok()
    ensures |c.bufs| == |c.held| == NBUF && InUse(c) <= c.slot.Keys && forall b :: b in c.slot ==> c.slot[b] < NBUF
  {
  }

  lemma UsedBuffer(c: Contents, i: nat)
    requires c.Ok() && i < NBUF && InUse(c) <= c.slot.Keys
    ensures c.bufs[i].refcnt > 0 <==> i in set b | b in InUse(c) :: c.slot[b]
  {
    if c.bufs[i].refcnt > 0 {
      assert c.bufs[i].blockno in InUse(c) && c.slot[c.bufs[i].blockno] == i;
    } else {
      forall b | b in InUse(c) ensures c.slot[b] != i {
        assert b in c.pinned || exists j :: 0 <= j < NBUF && c.held[j] > 0 && c.bufs[j].blockno == b;
      }
    }
  }

  lemma OneSlot(c: Contents, b: nat, d: nat)
    requires c.Ok() && b in c.slot && d in c.slot && c.slot[b] == c.slot[d]
    ensures b == d
  {
  }

  /** Every buffer is referenced exactly when NBUF blocks are in use, and then
      no other block is cached. */
  lemma BusyIff(c: Contents)
    requires c.Ok()
    ensures |c.bufs| == |c.held| == NBUF && |InUse(c)| <= NBUF && InUse(c) <= c.slot.Keys
    ensures AllBusy(c.bufs) <==> |InUse(c)| == NBUF
    ensures AllBusy(c.bufs) ==> c.slot.Keys == InUse(c)
  {
    hide Contents.Ok, InUse;
    UsedCached(c);
    SlotImage(c, InUse(c));
    var all := Upto(NBUF);
    var image := set b | b in InUse(c) :: c.slot[b];
    SubsetSize(image, all);
    forall i | 0 <= i < NBUF ensures c.bufs[i].refcnt > 0 <==> i in image {
      UsedBuffer(c, i);
    }
    if AllBusy(c.bufs) {
      assert image == all;
      forall b | b in c.slot ensures b in InUse(c) {
        assert c.slot[b] in image;
        var d :| d in InUse(c) && c.slot[d] == c.slot[b];
        OneSlot(c, b, d);
      }
    }
  }

  /** Held buffers still hold the same blocks. */
  ghost predicate Kept(c: Contents, d: Contents) {
    && |c.bufs| == |c.held| == NBUF && |d.bufs| == |d.held| == NBUF
    && forall i :: 0 <= i < NBUF && c.held[i] > 0 ==>
         && d.bufs[i].dev == c.bufs[i].dev && d.bufs[i].blockno == c.bufs[i].blockno
         && (c.bufs[i].valid ==> d.bufs[i].valid)
  }

  lemma KeptUse(c: Contents, d: Contents)
    requires Kept(c, d) && d.held == c.held
    ensures HeldBlocks(d) == HeldBlocks(c)
  {
  }

  /** A buffer that is free for others stays free while the same blocks are held
      and none is pinned in addition. */
  lemma StillFree(start: nat, c: Contents, d: Contents)
    requires c.Ok() && d.Ok() && Kept(c, d) && d.held == c.held && d.pinned <= c.pinned
    ensures !AllBusy(c.bufs) ==> !AllBusy(d.bufs)
    ensures d.pinned == c.pinned ==> (AllBusy(c.bufs) <==> AllBusy(d.bufs))
    ensures HomeHeld(start, c) ==> HomeHeld(start, d)
  {
    KeptUse(c, d);
    BusyIff(c);
    BusyIff(d);
    hide Contents.Ok, AllBusy, HeldBlocks;
    SubsetSize(InUse(d), InUse(c));
  }

  /** No process holds a block of the log. */
  ghost predicate HomeHeld(start: nat, c: Contents) {
    |c.bufs| == |c.held| && forall b :: b in HeldBlocks(c) ==> !InLog(start, b)
  }

  lemma LogTurn(start: nat, c: Contents, tail: nat)
    requires c.Ok() && HomeHeld(start, c) && tail < LOGBLOCKS && forall p :: p in c.pinned ==> !InLog(start, p)
    ensures AllBusy(c.bufs) ==> start + tail + 1 !in c.slot && start !in c.slot
  {
    LogUncached(start, c, start + tail + 1);
    LogUncached(start, c, start);
  }

  /** A block of the log can be read exactly while some buffer is not in use. */
  lemma LogUncached(start: nat, c: Contents, b: nat)
    requires c.Ok() && HomeHeld(start, c) && InLog(start, b) && forall p :: p in c.pinned ==> !InLog(start, p)
    ensures AllBusy(c.bufs) ==> b !in c.slot
  {
    BusyIff(c);
  }

  /** The header block write_head produces: it rewrites the count and the
      entries in use and leaves the rest of the block as it was. */
  function HeadBlock(was: Block, lh: seq<nat>): Block
    requires |lh| <= LOGBLOCKS && IsHeader(was)
  {
    Block([|lh|] + lh + was.words[|lh| + 1..])
  }

  /** The two disks agree outside the log's data blocks. */
  ghost predicate LogDataOnly(start: nat, d: Disk, e: Disk) {
    && |d| == |e|
    && forall b :: 0 <= b < |d| && !(start < b <= start + LOGBLOCKS) ==> d[b] == e[b]
  }

  /** The log's copy of entry t. */
  function LogEntry(d: Disk, start: nat, t: nat): Block
    requires t < LOGBLOCKS && start + LOGBLOCKS < |d|
  {
    d[start + t + 1]
  }

  ghost predicate Extends<T>(a: seq<T>, b: seq<T>) {
    |a| <= |b| && b[..|a|] == a
  }

  /** write_log from disk d0 has copied the first tail of n blocks, whose
      latest contents view0 gives, and passed through the disks after from. */
  ghost predicate LogWritten(start: nat, d0: Disk, view0: Disk, lh: seq<nat>, tail: nat,
                             d: Disk, view: Disk, trace: seq<Disk>, from: nat) {
    && LogDataOnly(start, d0, d) && LogDataOnly(start, view0, view)
    && from <= |trace|
    && (forall k :: from <= k < |trace| ==> LogDataOnly(start, d0, trace[k]))
    && tail <= |lh| <= LOGBLOCKS && start + LOGBLOCKS < |d| == |view0|
    && (forall t :: 0 <= t < tail ==> lh[t] < |d| && LogEntry(d, start, t) == view0[lh[t]])
  }

  lemma LogUnwritten(start: nat, d: Disk, view: Disk, lh: seq<nat>, trace: seq<Disk>)
    requires |lh| <= LOGBLOCKS && start + LOGBLOCKS < |d| == |view|
    ensures LogWritten(start, d, view, lh, 0, d, view, trace, |trace|)
  {
  }

  lemma LogWrittenStep(start: nat, d0: Disk, view0: Disk, lh: seq<nat>, tail: nat,
                       d: Disk, view: Disk, trace: seq<Disk>, from: nat)
    requires LogWritten(start, d0, view0, lh, tail, d, view, trace, from)
    requires tail < |lh| && lh[tail] < |d| && !InLog(start, lh[tail]) && |view| == |d|
    ensures var x := view[lh[tail]];
            var e := d[start + tail + 1 := x];
      LogWritten(start, d0, view0, lh, tail + 1, e, view[start + tail + 1 := x], trace + [e], from)
  {
  }

  /** The disk's header lists exactly lh. */
  ghost predicate HeaderIs(start: nat, d: Disk, lh: seq<nat>) {
    && LogOk(d, start) && Count(d, start) == |lh|
    && forall t :: 0 <= t < |lh| ==> Entry(d[start], t) == lh[t]
  }

  lemma HeadWritten(start: nat, d: Disk, lh: seq<nat>)
    requires start + LOGBLOCKS < |d| && IsHeader(d[start]) && |lh| <= LOGBLOCKS
    requires forall t :: 0 <= t < |lh| ==> lh[t] < |d| && !InLog(start, lh[t])
    ensures HeaderIs(start, d[start := HeadBlock(d[start], lh)], lh)
    ensures lh == [] ==> d[start := HeadBlock(d[start], lh)] == Cleared(d, start)
  {
    if lh == [] {
      assert HeadBlock(d[start], lh).words == d[start].words[0 := 0];
    }
  }

  /** install_trans from disk d0 has installed the first tail entries. */
  ghost predicate Installing(start: nat, d0: Disk, tail: nat, d: Disk, trace: seq<Disk>, from: nat) {
    && LogOk(d0, start) && tail <= Count(d0, start)
    && d == Installed(d0, start, tail)
    && |trace| == from + tail
    && forall k :: from <= k < |trace| ==> trace[k] == Installed(d0, start, k - from + 1)
  }

  lemma NotInstalled(start: nat, d: Disk, lh: seq<nat>, trace: seq<Disk>)
    requires HeaderIs(start, d, lh)
    ensures Installing(start, d, 0, d, trace, |trace|)
  {
  }

  lemma InstallingStep(start: nat, d0: Disk, lh: seq<nat>, tail: nat, d: Disk, trace: seq<Disk>, from: nat)
    requires Installing(start, d0, tail, d, trace, from) && HeaderIs(start, d0, lh) && tail < |lh|
    ensures start + tail + 1 < |d| == |d0| && d[start + tail + 1] == d0[start + tail + 1]
    ensures lh[tail] < |d|
    ensures var e := d[lh[tail] := d[start + tail + 1]];
      Installing(start, d0, tail + 1, e, trace + [e], from)
  {
  }

  lemma NextPinned(lh: seq<nat>, t: nat)
    requires t < |lh| && forall i, j :: 0 <= i < j < |lh| ==> lh[i] != lh[j]
    ensures lh[t] in Elems(lh[t..]) && Elems(lh[t..]) - {lh[t]} == Elems(lh[t + 1..])
    ensures |Elems(lh[t..])| == |lh| - t
  {
    ElemsSize(lh[t..]);
    assert lh[t..] == [lh[t]] + lh[t + 1..];
  }

  /** Log blocks are no home blocks, so none of them is pinned. */
  lemma LogUnpinned(lh: seq<nat>, t: nat, start: nat)
    requires t <= |lh| <= LOGBLOCKS && forall i :: 0 <= i < |lh| ==> !InLog(start, lh[i])
    ensures t < |lh| ==> start + t + 1 !in Elems(lh[t..])
    ensures t == |lh| ==> Elems(lh[t..]) == {}
  {
  }

  lemma HomePinned(lh: seq<nat>, start: nat)
    requires forall i :: 0 <= i < |lh| ==> !InLog(start, lh[i])
    ensures forall b :: b in Elems(lh) ==> !InLog(start, b)
  {
  }

  /** Once the log holds the latest contents of every block that the disk is
      behind on, recovery brings every block up to date. */
  lemma RecoversToView(start: nat, d: Disk, view: Disk, lh: seq<nat>)
    requires HeaderIs(start, d, lh) && |view| == |d| && |lh| <= LOGBLOCKS
    requires forall t :: 0 <= t < |lh| ==> lh[t] < |d| && LogEntry(d, start, t) == view[lh[t]]
    requires forall b :: 0 <= b < |d| && !InLog(start, b) && b !in lh ==> d[b] == view[b]
    ensures SameHome(start, Recovered(d, start), view)
  {
    forall b | 0 <= b < |d| && !InLog(start, b)
      ensures Recovered(d, start)[b] == view[b]
    {
      InstalledAt(d, start, |lh|, b);
      var i := LastEntry(d[start], |lh|, b);
      if i >= 0 {
        assert Entry(d[start], i) == lh[i];
        assert LogEntry(d, start, i) == view[lh[i]];
      }
    }
  }

  /** From position from on, the trace shows an empty log over pre. */
  ghost predicate LogStillEmpty(start: nat, pre: Disk, trace: seq<Disk>, from: nat) {
    forall k :: from <= k < |trace| ==>
      LogOk(trace[k], start) && Count(trace[k], start) == 0 && SameHome(start, trace[k], pre)
  }

  lemma WrittenStillEmpty(start: nat, d0: Disk, view0: Disk, lh: seq<nat>, tail: nat,
                          d: Disk, view: Disk, trace: seq<Disk>, from: nat)
    requires LogWritten(start, d0, view0, lh, tail, d, view, trace, from)
    requires start + LOGBLOCKS < |d0| && IsHeader(d0[start]) && Count(d0, start) == 0
    ensures LogStillEmpty(start, d0, trace, from)
    ensures d[start] == d0[start] && SameHome(start, d, d0) && SameHome(start, view, view0)
  {
  }

  /** Writing the header over a log that holds the latest contents commits. */
  lemma HeaderCommits(start: nat, c: Contents, d: Disk, view0: Disk, lh: seq<nat>, trace: seq<Disk>, d0: Disk,
                      from: nat)
    requires LogWritten(start, d0, view0, lh, |lh|, d, c.view, trace, from)
    requires c.Ok() && c.disk == d && c.pinned == Elems(lh) && c.dirty == {} && IsHeader(d[start])
    requires forall t :: 0 <= t < |lh| ==> lh[t] < |d| && !InLog(start, lh[t])
    ensures var e := d[start := HeadBlock(d[start], lh)];
      && HeaderIs(start, e, lh)
      && SameHome(start, Recovered(e, start), view0)
      && forall t :: 0 <= t < |lh| ==> LogEntry(e, start, t) == view0[lh[t]]
  {
    var e := d[start := HeadBlock(d[start], lh)];
    HeadWritten(start, d, lh);
    forall b | 0 <= b < |e| && !InLog(start, b) && b !in lh ensures e[b] == view0[b] {
      Clean(c, b);
    }
    RecoversToView(start, e, view0, lh);
  }

  /** Every step of install_trans leaves a point of the recovery of d0. */
  lemma InstallingPoints(start: nat, d0: Disk, tail: nat, d: Disk, trace: seq<Disk>, from: nat)
    requires Installing(start, d0, tail, d, trace, from)
    ensures forall k :: from <= k < |trace| ==> RecoveryPoint(start, d0, trace[k])
    ensures |d| == |d0| && d[start] == d0[start]
  {
  }

  lemma InstalledAll(start: nat, d0: Disk, lh: seq<nat>, d: Disk, trace: seq<Disk>, from: nat)
    requires Installing(start, d0, |lh|, d, trace, from) && HeaderIs(start, d0, lh)
    ensures d == Installed(d0, start, Count(d0, start)) && Cleared(d, start) == Recovered(d0, start)
    ensures Count(Recovered(d0, start), start) == 0
  {
  }

  lemma AllClean(c: Contents)
    requires c.Ok() && c.pinned == {} && c.dirty == {}
    ensures c.view == c.disk
  {
  }

  /** The two halves of a commit make one atomic trace. */
  lemma PhasesAtomic(start: nat, pre: Disk, post: Disk, trace: seq<Disk>, from: nat, c: nat)
    requires from <= c <= |trace|
    requires LogStillEmpty(start, pre, trace[..c], from)
    requires c < |trace| ==>
               && LogOk(trace[c], start) && Count(trace[c], start) > 0
               && SameHome(start, Recovered(trace[c], start), post)
    requires forall k :: c < k < |trace| ==> RecoveryPoint(start, trace[c], trace[k])
    ensures AtomicTrace(start, trace[from..], pre, post)
  {
    var states := trace[from..];
    forall k | 0 <= k < c - from
      ensures LogOk(states[k], start) && Count(states[k], start) == 0 && SameHome(start, states[k], pre)
    {
      assert states[k] == trace[..c][from + k];
    }
    forall k | c - from <= k < |states| ensures RecoveryPoint(start, states[c - from], states[k]) {
      assert states[k] == trace[from + k] && states[c - from] == trace[c];
      if k == c - from {
        assert Installed(trace[c], start, 0) == trace[c];
      }
    }
    SplitsAtHeader(start, states, pre, post, c - from);
  }

  class BlockLayer {
    const start: nat               // log.start
    var disk: Disk
    var bufs: seq<Buf>             // bcache.buf
    var next: seq<nat>
    var prev: seq<nat>
    var lh: seq<nat>               // log.lh.block[0 .. log.lh.n]
    var outstanding: nat
    var committing: bool

    ghost var order: seq<nat>      // buffers from most to least recently used
    ghost var slot: map<nat, nat>
    ghost var held: seq<nat>
    ghost var pinned: set<nat>
    ghost var dirty: set<nat>
    ghost var view: Disk
    ghost var trace: seq<Disk>     // the disk after each bwrite

    ghost function State(): Contents
      reads this
    {
      Contents(bufs, disk, slot, held, pinned, dirty, view)
    }

    /** The ring is a permutation of all buffers, and the cache together with
        the disk is one block map, view. */
    ghost predicate Core()
      reads this
    {
      && Ring(next, prev, order) && Permutes(order)
      && State().Ok() && |bufs| == NBUF && |held| == NBUF
      && start + LOGBLOCKS < |disk| && |view| == |disk| && IsHeader(disk[start])
    }

    ghost predicate LhOk()
      reads `lh, `disk
    {
      && |lh| <= LOGBLOCKS
      && (forall t :: 0 <= t < |lh| ==> lh[t] < |disk| && !InLog(start, lh[t]))
    }

    /** The log on disk is empty, and exactly the blocks of log.lh are pinned. */
    ghost predicate Pending()
      reads `lh, `pinned, `dirty, `disk
    {
      && LhOk()
      && (forall i, j :: 0 <= i < j < |lh| ==> lh[i] != lh[j])
      && pinned == Elems(lh)
      && (forall b :: b in dirty ==> !InLog(start, b))
      && start < |disk| && IsHeader(disk[start]) && Count(disk, start) == 0
    }

    /** The state between commits. */
    ghost predicate Valid()
      reads this
    {
      Core() && Pending()
    }

    ghost predicate NothingHeld()
      reads this
    {
      forall i :: 0 <= i < |held| ==> held[i] == 0
    }

    /** The state after boot, before recovery. */
    ghost predicate Booted()
      reads this
    {
      && Core() && NothingHeld()
      && lh == [] && pinned == {} && dirty == {} && view == disk
    }

    /** binit over an unused cache. */
    constructor (d: Disk, logstart: nat)
      requires logstart + LOGBLOCKS < |d| && IsHeader(d[logstart])
      ensures Booted() && disk == d && start == logstart && outstanding == 0 && !committing && trace == []
      ensures order == seq(NBUF, i requires 0 <= i < NBUF => NBUF - 1 - i)
    {
      var zero: Block := Block(seq(WORDS, _ => 0));
      start, disk, lh, outstanding, committing := logstart, d, [], 0, false;
      bufs := seq(NBUF, _ => Buf(0, 0, false, 0, zero));
      held := seq(NBUF, _ => 0);
      slot, pinned, dirty, view, trace := map[], {}, {}, d, [];
      new;
      Binit();
    }

    /** Links the buffers into the list, each new one at the front. */
    method Binit()
      modifies `next, `prev, `order
      ensures Ring(next, prev, order) && Permutes(order)
      ensures order == seq(NBUF, i requires 0 <= i < NBUF => NBUF - 1 - i)
    {
      next, prev, order := seq(NBUF + 1, _ => HEAD), seq(NBUF + 1, _ => HEAD), [];
      var b := 0;
      while b < NBUF
        invariant 0 <= b <= NBUF && |order| == b && Ring(next, prev, order)
        invariant forall i :: 0 <= i < b ==> order[i] == b - 1 - i
      {
        LinkFirst(b);
        b := b + 1;
      }
      forall c | 0 <= c < NBUF ensures c in order {
        assert order[NBUF - 1 - c] == c;
      }
    }

    /** The buffer that caches block b, found by walking the list from the
        most recently used end. */
    method FindCached(b: nat) returns (r: Option<nat>)
      requires Ring(next, prev, order) && Permutes(order) && State().Ok()
      ensures r == if b in slot then Some(slot[b]) else None
    {
      var i := next[HEAD];
      ghost var k := 0;
      RingAt(next, prev, order, -1);
      while i != HEAD
        invariant 0 <= k <= NBUF && i == Node(order, k)
        invariant forall j :: 0 <= j < k ==> !(bufs[order[j]].dev == ROOTDEV && bufs[order[j]].blockno == b)
        decreases NBUF - k
      {
        if bufs[i].dev == ROOTDEV && bufs[i].blockno == b {
          return Some(i);
        }
        RingAt(next, prev, order, k);
        i, k := next[i], k + 1;
      }
      forall c | c in slot ensures c != b {
        assert slot[c] in order;
      }
      return None;
    }

    /** The least recently used buffer that nobody references, found by
        walking the list from the other end. */
    method FindFree() returns (r: Option<nat>)
      requires Ring(next, prev, order) && Permutes(order) && |bufs| == NBUF
      ensures r.Some? ==> Victim(bufs, order, r.value)
      ensures r.None? ==> AllBusy(bufs)
    {
      var i := prev[HEAD];
      ghost var k := NBUF - 1;
      RingAt(next, prev, order, NBUF);
      while i != HEAD
        invariant -1 <= k < NBUF && i == Node(order, k)
        invariant forall j :: k < j < NBUF ==> bufs[order[j]].refcnt > 0
        decreases k
      {
        if bufs[i].refcnt == 0 {
          return Some(i);
        }
        RingAt(next, prev, order, k);
        i, k := prev[i], k - 1;
      }
      forall c | 0 <= c < NBUF ensures bufs[c].refcnt > 0 {
        assert c in order;
      }
      return None;
    }

    /** A referenced buffer for block b. A cached block is found; otherwise the
        least recently used free buffer is recycled, and there is none (the
        code panics) exactly when every buffer is referenced. */
    method Bget(b: nat) returns (r: Option<nat>)
      requires Core() && b < |disk|
      modifies `bufs, `slot, `held
      ensures Core()
      ensures r.None? <==> b !in old(slot) && AllBusy(old(bufs))
      ensures r.None? ==> State() == old(State())
      ensures r.Some? ==> r.value < NBUF == |old(bufs)| == |old(held)|
      ensures r.Some? && b in old(slot) ==> r.value == old(slot)[b] && State() == Hit(old(State()), r.value)
      ensures r.Some? && b !in old(slot) ==>
                && Victim(old(bufs), order, r.value) && old(held)[r.value] == 0
                && State() == Recycle(old(State()), r.value, b)
    {
      hide Contents.Ok, Ring, Permutes, Victim;
      r := FindCached(b);
      if r.Some? {
        var i := r.value;
        HitOk(State(), b);
        bufs := bufs[i := bufs[i].(refcnt := bufs[i].refcnt + 1)];
        held := held[i := held[i] + 1];
        assert State() == Hit(old(State()), i);
        return;
      }
      r := FindFree();
      if r.Some? {
        var i := r.value;
        RecycleOk(State(), order, i, b);
        slot := (if bufs[i].dev != 0 then slot - {bufs[i].blockno} else slot)[b := i];
        bufs := bufs[i := Buf(ROOTDEV, b, false, 1, bufs[i].data)];
        held := held[i := 1];
        assert State() == Recycle(old(State()), i, b);
      }
    }

    /** The block's latest contents, even while the disk is stale. */
    method Bread(b: nat) returns (r: Option<nat>)
      requires Core() && b < |disk|
      modifies `bufs, `slot, `held
      ensures Core()
      ensures r.None? <==> b !in old(slot) && AllBusy(old(bufs))
      ensures r.None? ==> State() == old(State())
      ensures r.Some? ==>
                && State().Holds(r.value) && b in slot && slot[b] == r.value && bufs[r.value].blockno == b
                && bufs[r.value].data == view[b]
                && held == old(held)[r.value := old(held)[r.value] + 1]
                && (b in old(slot) ==> r.value == old(slot)[b] && slot == old(slot))
                && (b !in old(slot) ==> Victim(old(bufs), order, r.value) && old(held)[r.value] == 0)
                && forall i :: 0 <= i < NBUF && i != r.value ==> bufs[i] == old(bufs)[i]
      ensures Kept(old(State()), State())
    {
      hide Contents.Ok, Ring, Permutes, Victim;
      if b in slot {
        CachedAt(State(), b);
      }
      r := Bget(b);
      if r.Some? {
        ghost var c := State();
        CachedAt(c, b);
        if !bufs[r.value].valid {
          LoadOk(c, r.value);
          bufs := bufs[r.value := bufs[r.value].(data := disk[b], valid := true)];
          assert State() == Load(c, r.value);
          CachedAt(State(), b);
        }
      }
    }

    /** The holder of a buffer changes its data. */
    method SetData(i: nat, x: Block)
      requires Core() && State().Holds(i)
      modifies `bufs, `view, `dirty
      ensures Core()
      ensures bufs[i].blockno < |view| && State() == Store(old(State()), i, x)
    {
      hide Ring, Permutes;
      StoreOk(State(), i, x);
      var b := bufs[i].blockno;
      bufs := bufs[i := bufs[i].(data := x)];
      view := view[b := x];
      dirty := dirty + {b};
    }

    /** One atomic disk write. */
    method Bwrite(i: nat)
      requires Core() && State().Holds(i) && (bufs[i].blockno == start ==> IsHeader(bufs[i].data))
      modifies `disk, `trace, `dirty
      ensures Core()
      ensures bufs[i].blockno < |disk| && State() == WriteBack(old(State()), i)
      ensures trace == old(trace) + [disk]
    {
      WriteBackOk(State(), i);
      disk := disk[bufs[i].blockno := bufs[i].data];
      trace := trace + [disk];
      dirty := dirty - {bufs[i].blockno};
    }

    /** Drops a reference; a buffer with none left becomes most recently used. */
    method Brelse(i: nat)
      requires Core() && i < NBUF && held[i] > 0
      requires bufs[i].blockno in dirty ==> held[i] > 1
      modifies `bufs, `held, `next, `prev, `order
      ensures Core()
      ensures old(bufs)[i].refcnt > 0 && State() == Drop(old(State()), i)
      ensures bufs[i].refcnt > 0 ==> order == old(order)
      ensures bufs[i].refcnt == 0 ==>
                exists k :: 0 <= k < NBUF && old(order)[k] == i && order == [i] + Without(old(order), k)
    {
      hide Contents.Ok, Ring, Permutes;
      DropOk(State(), i);
      bufs := bufs[i := bufs[i].(refcnt := bufs[i].refcnt - 1)];
      held := held[i := held[i] - 1];
      if bufs[i].refcnt == 0 {
        MoveToFront(i);
      }
    }

    method Unlink(i: nat, ghost k: nat)
      requires Ring(next, prev, order) && k < |order| && order[k] == i
      modifies `next, `prev, `order
      ensures Ring(next, prev, order) && order == Without(old(order), k)
    {
      UnlinkRing(next, prev, order, k);
      RingAt(next, prev, order, k);
      prev := prev[next[i] := prev[i]];
      next := next[prev[i] := next[i]];
      order := Without(order, k);
    }

    method LinkFirst(i: nat)
      requires Ring(next, prev, order) && i < NBUF && i !in order
      modifies `next, `prev, `order
      ensures Ring(next, prev, order) && order == [i] + old(order)
    {
      PushRing(next, prev, order, i);
      next := next[i := next[HEAD]];
      prev := prev[i := HEAD];
      prev := prev[next[HEAD] := i];
      next := next[HEAD := i];
      order := [i] + order;
    }

    /** Unlinks buffer i and links it again at the most recently used end. */
    method MoveToFront(i: nat)
      requires Ring(next, prev, order) && Permutes(order) && i < NBUF
      modifies `next, `prev, `order
      ensures Ring(next, prev, order) && Permutes(order)
      ensures exists k :: 0 <= k < NBUF && old(order)[k] == i && order == [i] + Without(old(order), k)
    {
      assert i in order;
      ghost var k :| 0 <= k < |order| && order[k] == i;
      MovedOnce(next, prev, order, k);
      Unlink(i, k);
      hide Ring;
      LinkFirst(i);
    }

    /** log_write's search for a block that is already in the transaction. */
    method FindLogged(b: nat) returns (k: nat)
      ensures k <= |lh| && (k < |lh| ==> lh[k] == b) && forall j :: 0 <= j < k ==> lh[j] != b
    {
      k := 0;
      while k < |lh| && lh[k] != b
        invariant 0 <= k <= |lh|
        invariant forall j :: 0 <= j < k ==> lh[j] != b
      {
        k := k + 1;
      }
    }

    /** log_write: the block joins the transaction, once, and is pinned. */
    method LogWrite(i: nat) returns (r: LogOutcome)
      requires Valid() && State().Holds(i) && !InLog(start, bufs[i].blockno)
      modifies `lh, `bufs, `pinned, `dirty
      ensures Valid()
      ensures r == if |old(lh)| >= LOGBLOCKS then TooBig else if outstanding < 1 then OutsideTrans else Logged
      ensures r != Logged ==> lh == old(lh) && State() == old(State())
      ensures r == Logged ==> lh == Entered(old(lh), bufs[i].blockno) && State() == Log(old(State()), old(lh), i)
    {
      hide Contents.Ok, Ring, Permutes;
      if |lh| >= LOGBLOCKS {
        return TooBig;
      }
      if outstanding < 1 {
        return OutsideTrans;
      }
      var b := bufs[i].blockno;
      var k := FindLogged(b);
      LogKeepsOk(State(), lh, i);
      EnteredOnce(lh, b);
      if k == |lh| {
        lh := lh + [b];
        bufs := bufs[i := bufs[i].(refcnt := bufs[i].refcnt + 1)];
        pinned := pinned + {b};
      } else {
        lh := lh[k := b];
      }
      dirty := dirty - {b};
      assert lh == Entered(old(lh), b);
      assert State() == Log(old(State()), old(lh), i);
      r := Logged;
    }

    /** Reads a block and changes it in its buffer. */
    method Change(b: nat, x: Block) returns (r: Option<nat>)
      requires Core() && b < |disk|
      modifies `bufs, `slot, `held, `view, `dirty
      ensures Core()
      ensures r.None? <==> b !in old(slot) && AllBusy(old(bufs))
      ensures r.Some? ==>
                && State().Holds(r.value) && bufs[r.value].blockno == b
                && view == old(view)[b := x] && dirty == old(dirty) + {b}
                && held == old(held)[r.value := old(held)[r.value] + 1]
    {
      hide Contents.Ok, Ring, Permutes, Victim, AllBusy;
      r := Bread(b);
      if r.Some? {
        SetData(r.value, x);
      }
    }

    /** The typical use of the log: read a block, change it, log it, release it. */
    method Update(b: nat, x: Block) returns (ok: bool)
      requires Valid() && b < |disk| && !InLog(start, b) && b !in dirty
      modifies `lh, `bufs, `slot, `held, `next, `prev, `order, `view, `dirty, `pinned
      ensures ok <==> |old(lh)| < LOGBLOCKS && outstanding > 0 && (b in old(slot) || !AllBusy(old(bufs)))
      ensures ok ==> Valid() && view == old(view)[b := x] && dirty == old(dirty) && held == old(held)
      ensures ok ==> lh == Entered(old(lh), b)
    {
      hide Contents.Ok, Ring, Permutes, Victim, AllBusy, Elems, Entered, InLog;
      var r := Change(b, x);
      if r.None? {
        return false;
      }
      var w := LogWrite(r.value);
      if w != Logged {
        return false;
      }
      Brelse(r.value);
      ok := true;
      assert held == old(held);
    }

    method Bunpin(i: nat)
      requires Core() && State().Holds(i) && bufs[i].blockno in pinned
      requires bufs[i].blockno < |disk| && |view| == |disk| && view[bufs[i].blockno] == disk[bufs[i].blockno]
      modifies `bufs, `pinned
      ensures Core()
      ensures old(bufs)[i].refcnt > 0 && State() == Unpin(old(State()), i)
    {
      hide Contents.Ok, Ring, Permutes;
      UnpinOk(State(), i);
      var b := bufs[i].blockno;
      bufs := bufs[i := bufs[i].(refcnt := bufs[i].refcnt - 1)];
      pinned := pinned - {b};
    }

    // ---- commit ----

    /** Reads two blocks and holds both buffers. The second read can fail
        only if its block is not cached. */
    method BreadPair(b: nat, c: nat) returns (i: Option<nat>, j: Option<nat>)
      requires Core() && b < |disk| && c < |disk| && b != c
      modifies `bufs, `slot, `held
      ensures Core()
      ensures i.None? <==> b !in old(slot) && AllBusy(old(bufs))
      ensures i.None? ==> State() == old(State())
      ensures Kept(old(State()), State())
      ensures i.Some? && c in pinned ==> j.Some?
      ensures i.Some? && j.None? ==>
                AllBusy(bufs) && i.value < NBUF && held == old(held)[i.value := old(held)[i.value] + 1]
      ensures i.Some? && j.Some? ==>
                && State().Holds(i.value) && State().Holds(j.value) && i.value != j.value
                && bufs[i.value].blockno == b && bufs[i.value].data == view[b]
                && bufs[j.value].blockno == c && bufs[j.value].data == view[c]
                && held == old(held)[i.value := old(held)[i.value] + 1][j.value := old(held)[j.value] + 1]
    {
      hide Contents.Ok, Ring, Permutes, Victim, AllBusy;
      i := Bread(b);
      if i.None? {
        return i, None;
      }
      if c in pinned {
        PinnedCached(State(), c);
      }
      if c in slot {
        CachedAt(State(), c);
      }
      j := Bread(c);
      if j.None? {
        assert AllBusy(bufs);
      }
    }

    method ReleasePair(i: nat, j: nat)
      requires Core() && i < NBUF && j < NBUF && i != j && held[i] > 0 && held[j] > 0 && dirty == {}
      modifies `bufs, `held, `next, `prev, `order
      ensures Core() && Kept(old(State()), State())
      ensures held == old(held)[i := old(held)[i] - 1][j := old(held)[j] - 1]
    {
      hide Contents.Ok, Ring, Permutes;
      Brelse(i);
      Brelse(j);
    }

    /** Reads block a and then block b, copies one over the other and writes
        it to disk; both buffers stay held. */
    method CopyPair(a: nat, b: nat, toFirst: bool) returns (i: Option<nat>, j: Option<nat>)
      requires Core() && a < |disk| && b < |disk| && a != b && a != start && b != start && dirty == {}
      modifies `bufs, `slot, `held, `view, `dirty, `disk, `trace
      ensures Core() && dirty == {}
      ensures i.None? <==> a !in old(slot) && AllBusy(old(bufs))
      ensures i.None? ==> State() == old(State())
      ensures Kept(old(State()), State())
      ensures i.Some? && b in pinned ==> j.Some?
      ensures i.Some? && j.None? ==>
                AllBusy(bufs) && i.value < NBUF && held == old(held)[i.value := old(held)[i.value] + 1]
      ensures i.None? || j.None? ==> disk == old(disk) && view == old(view) && trace == old(trace)
      ensures i.Some? && j.Some? ==>
                && State().Holds(i.value) && State().Holds(j.value) && i.value != j.value
                && bufs[i.value].blockno == a && bufs[j.value].blockno == b
                && held == old(held)[i.value := old(held)[i.value] + 1][j.value := old(held)[j.value] + 1]
                && trace == old(trace) + [disk]
      ensures i.Some? && j.Some? && toFirst ==>
                disk == old(disk)[a := old(view)[b]] && view == old(view)[a := old(view)[b]]
      ensures i.Some? && j.Some? && !toFirst ==>
                disk == old(disk)[b := old(view)[a]] && view == old(view)[b := old(view)[a]]
    {
      hide Contents.Ok, Ring, Permutes, Victim, AllBusy;
      i, j := BreadPair(a, b);
      if i.None? || j.None? {
        return;
      }
      var target, source := i.value, j.value;
      if !toFirst {
        target, source := source, target;
      }
      SetData(target, bufs[source].data);
      Bwrite(target);
    }

    /** Copies one logged block from the cache to its place in the log. */
    method WriteLogBlock(tail: nat) returns (ok: bool)
      requires Core() && LhOk() && tail < |lh| && dirty == {} && lh[tail] in pinned
      modifies `bufs, `slot, `held, `next, `prev, `order, `view, `dirty, `disk, `trace
      ensures Core() && dirty == {}
      ensures !ok <==> start + tail + 1 !in old(slot) && AllBusy(old(bufs))
      ensures !ok ==> State() == old(State()) && trace == old(trace)
      ensures Kept(old(State()), State())
      ensures ok ==> held == old(held) && trace == old(trace) + [disk]
      ensures ok ==> disk == old(disk)[start + tail + 1 := old(view)[lh[tail]]]
      ensures ok ==> view == old(view)[start + tail + 1 := old(view)[lh[tail]]]
    {
      hide Contents.Ok, Ring, Permutes, Victim, AllBusy;
      var to, from := CopyPair(start + tail + 1, lh[tail], true);
      if to.None? {
        return false;
      }
      ReleasePair(from.value, to.value);
      assert held == old(held);
      ok := true;
    }

    /** write_log: every logged block is copied to the log; nothing outside
        the log's data blocks changes on the way. */
    method WriteLog() returns (ok: bool)
      requires Valid() && dirty == {}
      modifies `bufs, `slot, `held, `next, `prev, `order, `view, `dirty, `disk, `trace
      ensures Core() && dirty == {} && Extends(old(trace), trace)
      ensures exists tail :: LogWritten(start, old(disk), old(view), lh, tail, disk, view, trace, |old(trace)|)
      ensures ok ==> LogWritten(start, old(disk), old(view), lh, |lh|, disk, view, trace, |old(trace)|)
      ensures ok ==> held == old(held) && Kept(old(State()), State())
      ensures HomeHeld(start, old(State())) ==> (ok <==> lh == [] || !AllBusy(old(bufs)))
      ensures HomeHeld(start, old(State())) && !ok ==> trace == old(trace)
    {
      hide Contents.Ok, Ring, Permutes, Victim, AllBusy, LogWritten, LogDataOnly, HomeHeld, InLog;
      LogUnwritten(start, disk, view, lh, trace);
      HomePinned(lh, start);
      var tail := 0;
      while tail < |lh|
        invariant 0 <= tail <= |lh| && Core() && dirty == {} && held == old(held) && LhOk()
        invariant Extends(old(trace), trace)
        invariant LogWritten(start, old(disk), old(view), lh, tail, disk, view, trace, |old(trace)|)
        invariant Kept(old(State()), State()) && (AllBusy(old(bufs)) && HomeHeld(start, old(State())) ==> tail == 0)
        invariant tail == 0 ==> trace == old(trace)
      {
        StillFree(start, old(State()), State());
        if HomeHeld(start, old(State())) {
          LogTurn(start, State(), tail);
        }
        LogWrittenStep(start, old(disk), old(view), lh, tail, disk, view, trace, |old(trace)|);
        ok := WriteLogBlock(tail);
        if !ok {
          return;
        }
        tail := tail + 1;
      }
      ok := true;
    }

    /** write_head: the in-memory header reaches the disk in one write. */
    method WriteHead() returns (ok: bool)
      requires Core() && |lh| <= LOGBLOCKS && dirty == {}
      requires forall b :: b in pinned ==> !InLog(start, b)
      modifies `bufs, `slot, `held, `next, `prev, `order, `view, `dirty, `disk, `trace
      ensures Core() && dirty == {}
      ensures !ok <==> start !in old(slot) && AllBusy(old(bufs))
      ensures !ok ==> State() == old(State()) && trace == old(trace)
      ensures Kept(old(State()), State())
      ensures ok ==>
                && held == old(held)
                && disk == old(disk)[start := HeadBlock(old(disk)[start], lh)]
                && |disk[start].words| > |lh| && disk[start].words[0] == |lh| && disk[start].words[1..|lh| + 1] == lh
                && |view| == |disk| && view == old(view)[start := disk[start]]
                && trace == old(trace) + [disk]
    {
      hide Contents.Ok, Ring, Permutes, Victim, AllBusy;
      Clean(State(), start);
      var buf := Bread(start);
      if buf.None? {
        return false;
      }
      SetData(buf.value, HeadBlock(bufs[buf.value].data, lh));
      Bwrite(buf.value);
      Brelse(buf.value);
      assert held == old(held);
      ok := true;
    }

    /** The end of a turn of install_trans: the home block's buffer is unpinned
        unless the log is being recovered, and both buffers are released. */
    method ReleaseInstalled(i: nat, j: nat, recovering: bool)
      requires Core() && i < NBUF && j < NBUF && i != j && held[i] > 0 && held[j] > 0 && dirty == {}
      requires State().Holds(j) && (recovering || bufs[j].blockno in pinned)
      requires bufs[j].blockno < |disk| == |view| && view[bufs[j].blockno] == disk[bufs[j].blockno]
      modifies `bufs, `held, `next, `prev, `order, `pinned
      ensures Core() && Kept(old(State()), State())
      ensures held == old(held)[i := old(held)[i] - 1][j := old(held)[j] - 1]
      ensures pinned == if recovering then old(pinned) else old(pinned) - {old(bufs)[j].blockno}
    {
      hide Contents.Ok, Ring, Permutes;
      if !recovering {
        Bunpin(j);
      }
      ReleasePair(i, j);
    }

    /** The first half of a turn of install_trans: the log block is copied home,
        and both buffers stay held. */
    method CopyHome(tail: nat) returns (i: Option<nat>, j: Option<nat>)
      requires Core() && LhOk() && tail < |lh| && dirty == {} && start + tail + 1 !in pinned
      modifies `bufs, `slot, `held, `view, `dirty, `disk, `trace
      ensures i.Some? && j.Some? ==>
                && disk == old(disk)[lh[tail] := old(disk)[start + tail + 1]]
                && view == old(view)[lh[tail] := old(disk)[start + tail + 1]]
                && trace == old(trace) + [disk]
      ensures i.None? || j.None? ==> disk == old(disk) && view == old(view) && trace == old(trace)
      ensures Core() && dirty == {} && Kept(old(State()), State())
      ensures i.None? <==> start + tail + 1 !in old(slot) && AllBusy(old(bufs))
      ensures i.None? ==> State() == old(State())
      ensures i.Some? && lh[tail] in pinned ==> j.Some?
      ensures i.Some? && j.Some? ==>
                && i.value < NBUF && j.value < NBUF && i.value != j.value && State().Holds(j.value)
                && bufs[j.value].blockno == lh[tail] && held[i.value] > 0 && held[j.value] > 0
                && held[i.value := held[i.value] - 1][j.value := held[j.value] - 1] == old(held)
      ensures old(NothingHeld()) && |pinned| < NBUF ==> i.Some?
      ensures old(NothingHeld()) && |pinned| + 1 < NBUF ==> j.Some?
    {
      hide Contents.Ok, Ring, Permutes, Victim, AllBusy;
      if NothingHeld() && |pinned| < NBUF {
        FreeExists(State(), {});
      }
      Clean(State(), start + tail + 1);
      i, j := CopyPair(start + tail + 1, lh[tail], false);
      if i.Some? && j.None? && old(NothingHeld()) && |pinned| + 1 < NBUF {
        FreeExists(State(), {i.value});
      }
    }

    /** Copies one block from the log to its home and lets its buffer go. */
    method InstallBlock(tail: nat, recovering: bool) returns (ok: bool)
      requires Core() && LhOk() && tail < |lh| && dirty == {}
      requires start + tail + 1 !in pinned && (recovering || lh[tail] in pinned)
      modifies `bufs, `slot, `held, `next, `prev, `order, `view, `dirty, `disk, `trace, `pinned
      ensures ok ==> pinned == if recovering then old(pinned) else old(pinned) - {lh[tail]}
      ensures ok ==> disk == old(disk)[lh[tail] := old(disk)[start + tail + 1]]
      ensures ok ==> view == old(view)[lh[tail] := old(disk)[start + tail + 1]]
      ensures ok ==> held == old(held) && trace == old(trace) + [disk]
      ensures !ok ==> disk == old(disk) && view == old(view) && trace == old(trace)
      ensures Core() && dirty == {} && Kept(old(State()), State())
      ensures !recovering ==> (!ok <==> start + tail + 1 !in old(slot) && AllBusy(old(bufs)))
      ensures !recovering && !ok ==> State() == old(State())
      ensures old(NothingHeld()) && |old(pinned)| + (if recovering then 1 else 0) < NBUF ==> ok
    {
      hide Contents.Ok, Ring, Permutes, Victim, AllBusy, Contents.Holds;
      var lbuf, dbuf := CopyHome(tail);
      if lbuf.None? || dbuf.None? {
        return false;
      }
      ReleaseInstalled(lbuf.value, dbuf.value, recovering);
      assert held == old(held);
      ok := true;
    }

    /** install_trans: the disk passes through the stages of installing the
        logged blocks in order, and each home block is unpinned once written. */
    method InstallTrans(recovering: bool) returns (ok: bool)
      requires Core() && LhOk() && dirty == {} && HeaderIs(start, disk, lh)
      requires recovering ==> pinned == {} && view == disk
      requires !recovering ==> pinned == Elems(lh) && (forall i, j :: 0 <= i < j < |lh| ==> lh[i] != lh[j])
      requires !recovering ==> forall t :: 0 <= t < |lh| ==> LogEntry(disk, start, t) == view[lh[t]]
      modifies `bufs, `slot, `held, `next, `prev, `order, `view, `dirty, `disk, `trace, `pinned
      ensures Core() && dirty == {} && Extends(old(trace), trace)
      ensures |trace| <= |old(trace)| + |lh|
      ensures Installing(start, old(disk), |trace| - |old(trace)|, disk, trace, |old(trace)|)
      ensures ok ==> |trace| - |old(trace)| == |lh| && held == old(held) && pinned == {}
      ensures view == if recovering then disk else old(view)
      ensures recovering && old(NothingHeld()) ==> ok
      ensures !recovering && !AllBusy(old(bufs)) ==> ok
      ensures ok ==> Kept(old(State()), State())
    {
      hide Contents.Ok, Ring, Permutes, Victim, AllBusy, Installing, Installed, HeaderIs, Elems, LogOk, HomeHeld;
      NotInstalled(start, disk, lh, trace);
      var tail := 0;
      assert lh[0..] == lh;
      while tail < |lh|
        invariant 0 <= tail <= |lh| && Core() && dirty == {} && held == old(held) && LhOk()
        invariant Extends(old(trace), trace) && |trace| == |old(trace)| + tail
        invariant Installing(start, old(disk), tail, disk, trace, |old(trace)|)
        invariant pinned == if recovering then {} else Elems(lh[tail..])
        invariant view == if recovering then disk else old(view)
        invariant Kept(old(State()), State()) && pinned <= old(pinned)
        invariant !recovering && !AllBusy(old(bufs)) ==> !AllBusy(bufs)
      {
        InstallingStep(start, old(disk), lh, tail, disk, trace, |old(trace)|);
        LogUnpinned(lh, tail, start);
        if !recovering {
          NextPinned(lh, tail);
          assert LogEntry(old(disk), start, tail) == view[lh[tail]];
        }
        ok := InstallBlock(tail, recovering);
        if !ok {
          return;
        }
        StillFree(start, old(State()), State());
        tail := tail + 1;
      }
      LogUnpinned(lh, tail, start);
      ok := true;
    }

    /** The first half of commit: up to and including the header write that
        makes the transaction durable. */
    method LogPhase() returns (ok: bool)
      requires Valid() && dirty == {}
      modifies `bufs, `slot, `held, `next, `prev, `order, `view, `dirty, `disk, `trace
      ensures Core() && dirty == {} && LhOk() && Extends(old(trace), trace)
      ensures !ok ==> LogStillEmpty(start, old(disk), trace, |old(trace)|)
      ensures ok ==>
                && |trace| > |old(trace)| && trace[|trace| - 1] == disk
                && LogStillEmpty(start, old(disk), trace[..|trace| - 1], |old(trace)|)
                && held == old(held) && HeaderIs(start, disk, lh)
                && SameHome(start, Recovered(disk, start), old(view)) && SameHome(start, view, old(view))
                && forall t :: 0 <= t < |lh| ==> LogEntry(disk, start, t) == view[lh[t]]
      ensures ok ==> Kept(old(State()), State())
      ensures HomeHeld(start, old(State())) && lh != [] ==> (ok <==> !AllBusy(old(bufs)))
      ensures HomeHeld(start, old(State())) && lh != [] && !ok ==> trace == old(trace)
    {
      hide Contents.Ok, Ring, Permutes, Victim, AllBusy, LogWritten, LogStillEmpty, HeaderIs, LogDataOnly,
        Elems, Recovered, HomeHeld;
      ok := WriteLog();
      if !ok {
        ghost var tail :| LogWritten(start, old(disk), old(view), lh, tail, disk, view, trace, |old(trace)|);
        WrittenStillEmpty(start, old(disk), old(view), lh, tail, disk, view, trace, |old(trace)|);
        return;
      }
      WrittenStillEmpty(start, old(disk), old(view), lh, |lh|, disk, view, trace, |old(trace)|);
      HeaderCommits(start, State(), disk, old(view), lh, trace, old(disk), |old(trace)|);
      StillFree(start, old(State()), State());
      HomePinned(lh, start);
      if HomeHeld(start, old(State())) {
        LogTurn(start, State(), 0);
      }
      ghost var before := trace;
      ok := WriteHead();
      if ok {
        assert trace[..|trace| - 1] == before;
      }
    }

    /** The second half of commit, and all of recovery once the header has
        been read: install, then empty the log. */
    method InstallPhase(recovering: bool) returns (ok: bool)
      requires Core() && LhOk() && dirty == {} && HeaderIs(start, disk, lh)
      requires recovering ==> pinned == {} && view == disk
      requires !recovering ==> pinned == Elems(lh) && (forall i, j :: 0 <= i < j < |lh| ==> lh[i] != lh[j])
      requires !recovering ==> forall t :: 0 <= t < |lh| ==> LogEntry(disk, start, t) == view[lh[t]]
      modifies `bufs, `slot, `held, `next, `prev, `order, `view, `dirty, `disk, `trace, `pinned, `lh
      ensures Extends(old(trace), trace)
      ensures forall k :: |old(trace)| <= k < |trace| ==> RecoveryPoint(start, old(disk), trace[k])
      ensures ok ==>
                && Valid() && dirty == {} && lh == [] && held == old(held)
                && disk == Recovered(old(disk), start) && view == disk
                && |trace| > |old(trace)| && trace[|trace| - 1] == disk
      ensures recovering && old(NothingHeld()) ==> ok
      ensures !recovering && !AllBusy(old(bufs)) ==> ok
    {
      hide Contents.Ok, Ring, Permutes, Victim, AllBusy, Installing, Installed;
      ok := InstallTrans(recovering);
      InstallingPoints(start, old(disk), |trace| - |old(trace)|, disk, trace, |old(trace)|);
      if !ok {
        return;
      }
      InstalledAll(start, old(disk), lh, disk, trace, |old(trace)|);
      lh := [];
      if recovering && NothingHeld() {
        FreeExists(State(), {});
      }
      StillFree(start, old(State()), State());
      HeadWritten(start, disk, lh);
      ghost var before := trace;
      ok := WriteHead();
      if ok {
        AllClean(State());
        assert trace[..|trace| - 1] == before;
      }
    }

    /** commit: whichever block write a crash follows, recovery finds either
        the disk before the transaction or all of it. While no process holds a
        block of the log, it runs to its end exactly when the transaction is
        empty or some buffer is not referenced; otherwise it panics in bget
        before its first write. */
    method Commit() returns (ok: bool)
      requires Valid() && dirty == {}
      modifies `bufs, `slot, `held, `next, `prev, `order, `view, `dirty, `disk, `trace, `pinned, `lh
      ensures Extends(old(trace), trace)
      ensures AtomicTrace(start, trace[|old(trace)|..], old(disk), old(view))
      ensures ok ==>
                && Valid() && dirty == {} && lh == [] && held == old(held)
                && view == disk && SameHome(start, disk, old(view))
      ensures HomeHeld(start, old(State())) ==> (ok <==> old(lh) == [] || !AllBusy(old(bufs)))
      ensures HomeHeld(start, old(State())) && !ok ==> trace == old(trace)
    {
      hide Contents.Ok, Ring, Permutes, AtomicTrace, LogStillEmpty, LogOk, Recovered, RecoveryPoint, AllBusy,
        HomeHeld;
      ghost var from := |trace|;
      if |lh| > 0 {
        ok := LogPhase();
        if !ok {
          assert trace[..|trace|] == trace;
          PhasesAtomic(start, old(disk), old(view), trace, from, |trace|);
          return;
        }
        ghost var c, mid := |trace| - 1, disk;
        StillFree(start, old(State()), State());
        ok := InstallPhase(false);
        assert trace[..c] == trace[..c + 1][..c];
        PhasesAtomic(start, old(disk), old(view), trace, from, c);
      } else {
        ok := true;
        AllClean(State());
        PhasesAtomic(start, old(disk), old(view), trace, from, from);
      }
    }

    /** read_head: the header on disk becomes the in-memory header. */
    method ReadHead() returns (ok: bool)
      requires Booted() && LogOk(disk, start)
      modifies `bufs, `slot, `held, `next, `prev, `order, `lh
      ensures ok && Core() && LhOk() && NothingHeld() && HeaderIs(start, disk, lh)
    {
      hide Contents.Ok, Ring, Permutes, Victim, AllBusy;
      FreeExists(State(), {});
      var buf := Bread(start);
      var head := bufs[buf.value].data;
      lh := [];
      var i := 0;
      while i < head.words[0]
        modifies `lh
        invariant 0 <= i <= head.words[0] && |lh| == i
        invariant forall t :: 0 <= t < i ==> lh[t] == Entry(head, t)
      {
        lh := lh + [Entry(head, i)];
        i := i + 1;
      }
      Brelse(buf.value);
      assert held == old(held);
      ok := true;
    }

    /** recover_from_log at boot: the disk becomes what the log says, passing
        only through points from which recovery could start over. */
    method Recover()
      requires Booted() && LogOk(disk, start)
      modifies `bufs, `slot, `held, `next, `prev, `order, `view, `dirty, `disk, `trace, `pinned, `lh
      ensures Valid() && NothingHeld() && dirty == {} && lh == []
      ensures disk == Recovered(old(disk), start) && view == disk
      ensures Extends(old(trace), trace)
      ensures forall k :: |old(trace)| <= k < |trace| ==> RecoveryPoint(start, old(disk), trace[k])
    {
      var ok := ReadHead();
      ok := InstallPhase(true);
    }

    /** One pass of begin_op's loop: outside a commit, an operation enters if
        the log has room for what it and every running operation may write. */
    method BeginOp() returns (entered: bool)
      modifies `outstanding
      ensures entered <==> !committing && |lh| + (old(outstanding) + 1) * MAXOPBLOCKS <= LOGBLOCKS
      ensures outstanding == old(outstanding) + if entered then 1 else 0
    {
      entered := !committing && |lh| + (outstanding + 1) * MAXOPBLOCKS <= LOGBLOCKS;
      if entered {
        outstanding := outstanding + 1;
      }
    }

    /** The first section of end_op under log.lock: the last running operation
        has to commit. */
    method Leave() returns (panicked: bool, last: bool)
      requires outstanding > 0
      modifies `outstanding, `committing
      ensures outstanding == old(outstanding) - 1 && (panicked <==> old(committing))
      ensures !panicked ==> (last <==> outstanding == 0) && committing == last
    {
      outstanding := outstanding - 1;
      if committing {
        return true, false;
      }
      last := outstanding == 0;
      committing := last;
      panicked := false;
    }

    /** The last section of end_op under log.lock. */
    method Reopen()
      modifies `committing
      ensures !committing
    {
      committing := false;
    }

    /** end_op: only the last running operation touches the disk, and then the
        whole transaction is durable or none of it. It panics during a commit,
        and if the commit finds no buffer. */
    method EndOp() returns (ok: bool)
      requires Valid() && outstanding > 0 && (outstanding == 1 ==> dirty == {})
      modifies `outstanding, `committing,
               `bufs, `slot, `held, `next, `prev, `order, `view, `dirty, `disk, `trace, `pinned, `lh
      ensures outstanding == old(outstanding) - 1 && (ok ==> !old(committing) && !committing)
      ensures old(committing) ==> !ok && State() == old(State()) && trace == old(trace)
      ensures !old(committing) && outstanding > 0 ==>
                ok && Valid() && State() == old(State()) && lh == old(lh) && trace == old(trace)
      ensures outstanding == 0 ==>
                Extends(old(trace), trace) && AtomicTrace(start, trace[|old(trace)|..], old(disk), old(view))
      ensures outstanding == 0 && ok ==>
                Valid() && lh == [] && view == disk && SameHome(start, disk, old(view))
      ensures !old(committing) && outstanding == 0 && HomeHeld(start, old(State())) ==>
                (ok <==> old(lh) == [] || !AllBusy(old(bufs)))
    {
      var panicked, last := Leave();
      if panicked {
        PhasesAtomic(start, old(disk), old(view), trace, |trace|, |trace|);
        return false;
      }
      ok := true;
      if last {
        ok := Commit();
        if ok {
          Reopen();
        }
      }
    }
  }
}
