/** Every schedule of LogMachine carried out on the buffer cache and the disk of
    BlockLayer, move by move, with the disk that a crash leaves at any point. */
module LogRuns {
  import opened Common
  import opened CrashRecovery
  import opened BlockLayer
  import opened LogMachine
  import Cache = BlockLayer
  import G = GroupCommit

  // ---- who holds which buffer ----

  /** The cache's holders are the machine's. */
  ghost predicate Holding(c: Contents, out: multiset<nat>) {
    && |c.bufs| == |c.held| == NBUF
    && (forall b :: b in out ==> b in c.slot && c.slot[b] < NBUF && c.bufs[c.slot[b]].valid)
    && (forall b :: b in c.slot ==> c.slot[b] < NBUF && c.held[c.slot[b]] == out[b])
  }

  lemma HoldingBlocks(c: Contents, out: multiset<nat>)
    requires c.Ok() && Holding(c, out)
    ensures HeldBlocks(c) == set b | b in out
  {
    forall b | b in out ensures b in HeldBlocks(c) {
      assert c.held[c.slot[b]] > 0 && c.bufs[c.slot[b]].blockno == b;
    }
  }

  /** A held block's buffer stays where it is. */
  lemma HeldStays(c: Contents, d: Contents, out: multiset<nat>, b: nat)
    requires c.Ok() && d.Ok() && Kept(c, d) && Holding(c, out) && b in out
    ensures b in c.slot && b in d.slot && d.slot[b] == c.slot[b] && c.held[c.slot[b]] == out[b]
    ensures d.bufs[c.slot[b]].valid
  {
  }

  lemma HeldWas(c: Contents, d: Contents, out: multiset<nat>, i: nat)
    requires c.Ok() && d.Ok() && Kept(c, d) && Holding(c, out) && i < NBUF && c.held[i] > 0
    ensures out[d.bufs[i].blockno] == c.held[i]
  {
  }

  lemma HoldingMoved(c: Contents, d: Contents, out: multiset<nat>, r: nat, b: nat)
    requires c.Ok() && d.Ok() && Kept(c, d) && Holding(c, out)
    requires b in d.slot && d.slot[b] == r < NBUF && d.bufs[r].valid && d.held == c.held[r := c.held[r] + 1]
    ensures Holding(d, out + multiset{b})
  {
    var more := out + multiset{b};
    SlotsOf(d);
    forall i | 0 <= i < NBUF && c.held[i] > 0 ensures out[d.bufs[i].blockno] == c.held[i] {
      HeldWas(c, d, out, i);
    }
    forall x | x in more ensures x in d.slot && d.slot[x] < NBUF && d.bufs[d.slot[x]].valid {
      if x != b {
        HeldStays(c, d, out, x);
      }
    }
    forall x | x in d.slot ensures d.slot[x] < NBUF && d.held[d.slot[x]] == more[x] {
      if x in out {
        HeldStays(c, d, out, x);
      }
    }
  }

  lemma SlotsOf(d: Contents)
    requires d.Ok()
    ensures |d.bufs| == |d.held| == NBUF
    ensures forall x :: x in d.slot ==> d.slot[x] < NBUF && d.bufs[d.slot[x]].dev != 0 && d.bufs[d.slot[x]].blockno == x
  {
  }

  lemma HoldingSame(c: Contents, d: Contents, out: multiset<nat>)
    requires c.Ok() && d.Ok() && Kept(c, d) && Holding(c, out) && d.held == c.held
    ensures Holding(d, out)
  {
    SlotsOf(d);
    forall i | 0 <= i < NBUF && c.held[i] > 0 ensures out[d.bufs[i].blockno] == c.held[i] {
      HeldWas(c, d, out, i);
    }
    forall x | x in out ensures x in d.slot && d.slot[x] < NBUF && d.bufs[d.slot[x]].valid {
      HeldStays(c, d, out, x);
    }
    forall x | x in d.slot ensures d.slot[x] < NBUF && d.held[d.slot[x]] == out[x] {
      if x in out {
        HeldStays(c, d, out, x);
      }
    }
  }

  lemma HoldingLess(c: Contents, out: multiset<nat>, b: nat)
    requires c.Ok() && Holding(c, out) && b in out
    ensures b in c.slot && c.held[c.slot[b]] == out[b] > 0 && c.bufs[c.slot[b]].blockno == b
    ensures c.slot[b] < NBUF && c.Holds(c.slot[b])
    ensures c.bufs[c.slot[b]].refcnt > 0 ==> Holding(Drop(c, c.slot[b]), out - multiset{b})
  {
  }

  // ---- where the disk is ----

  /** The disk and the visible blocks at a point of the machine; h is the disk
      right after the last header write. */
  ghost predicate PhaseOk(start: nat, s: Sys, disk: Disk, view: Disk, h: Disk) {
    && start + LOGBLOCKS < |disk| == |view| && IsHeader(disk[start]) && s.saved != []
    && |s.g.lh| <= LOGBLOCKS && (forall t :: 0 <= t < |s.g.lh| ==> s.g.lh[t] < |disk|)
    && (!s.phase.Idle? ==> s.g.lh != [] && s.phase.tail <= |s.g.lh|)
    && if s.phase.Installing? then
         && |h| == |disk| && HeaderIs(start, h, s.g.lh) && disk == Installed(h, start, s.phase.tail)
         && SameHome(start, Recovered(h, start), s.saved[|s.saved| - 1])
         && (forall t :: 0 <= t < |s.g.lh| ==> LogEntry(h, start, t) == view[s.g.lh[t]])
       else
         && Count(disk, start) == 0 && SameHome(start, disk, s.saved[|s.saved| - 1])
         && (s.phase.Writing? ==>
               forall t :: 0 <= t < s.phase.tail ==> LogEntry(disk, start, t) == view[s.g.lh[t]])
  }

  /** The cache and the in-memory header are the machine's. */
  ghost predicate Steady(start: nat, c: Contents, lh: seq<nat>, n: nat, committing: bool, s: Sys) {
    && lh == s.g.lh && n == s.g.outstanding && committing == s.g.committing
    && |lh| <= LOGBLOCKS && (forall t :: 0 <= t < |lh| ==> lh[t] < |c.disk| && !InLog(start, lh[t]))
    && (forall i, j :: 0 <= i < j < |lh| ==> lh[i] != lh[j])
    && c.pinned == Pinned(s) && c.dirty == s.dirty && SameHome(start, c.view, s.view) && Holding(c, s.out)
  }

  ghost predicate Tied(bl: BlockLayer, s: Sys, h: Disk)
    reads bl
  {
    && bl.Core() && Steady(bl.start, bl.State(), bl.lh, bl.outstanding, bl.committing, s)
    && PhaseOk(bl.start, s, bl.disk, bl.view, h)
  }

  /** The cache has no buffer to spare exactly when the machine is crowded, and
      then just the blocks in use are cached. */
  lemma CrowdedIff(start: nat, c: Contents, lh: seq<nat>, n: nat, committing: bool, s: Sys)
    requires c.Ok() && Steady(start, c, lh, n, committing, s) && Home(start, s)
    ensures AllBusy(c.bufs) <==> Crowded(s)
    ensures Crowded(s) ==> c.slot.Keys == Used(s)
    ensures HomeHeld(start, c)
  {
    hide Contents.Ok, Holding, AllBusy, HeldBlocks, Pinned, SameHome;
    HoldingBlocks(c, s.out);
    BusyIff(c);
    assert HeldBlocks(c) == Held(s);
    assert InUse(c) == Used(s);
    hide Held, Steady, Home;
    HeldHome(start, s);
  }

  lemma HeldHome(start: nat, s: Sys)
    requires Home(start, s)
    ensures forall b :: b in Held(s) ==> !InLog(start, b)
  {
  }

  lemma PhaseSame(start: nat, s: Sys, t: Sys, disk: Disk, view: Disk, h: Disk)
    requires PhaseOk(start, s, disk, view, h) && t.saved == s.saved && t.phase == s.phase && t.g.lh == s.g.lh
    ensures PhaseOk(start, t, disk, view, h)
  {
  }

  // ---- processes ----

  lemma TakeSteady(start: nat, c: Contents, d: Contents, lh: seq<nat>, n: nat, cm: bool, s: Sys, r: nat, b: nat)
    requires c.Ok() && d.Ok() && Kept(c, d) && Steady(start, c, lh, n, cm, s)
    requires b in d.slot && d.slot[b] == r < NBUF && d.bufs[r].valid && |c.held| == NBUF
    requires d == c.(bufs := d.bufs, slot := d.slot, held := c.held[r := c.held[r] + 1])
    ensures Steady(start, d, lh, n, cm, s.(out := s.out + multiset{b}))
  {
    hide Contents.Ok, Kept, Holding;
    HoldingMoved(c, d, s.out, r, b);
  }

  method StepTake(bl: BlockLayer, b: nat, ghost s: Sys, ghost h: Disk) returns (ok: bool)
    requires Tied(bl, s, h) && Home(bl.start, s) && !Do(bl.start, s, Take(b)).Disabled?
    modifies bl
    ensures ok <==> Do(bl.start, s, Take(b)).Next?
    ensures ok ==> Tied(bl, Do(bl.start, s, Take(b)).s, h)
    ensures bl.disk == old(bl.disk) && bl.trace == old(bl.trace)
  {
    hide Contents.Ok, Ring, Permutes, AllBusy, Crowded, PhaseOk, Victim, Home;
    CrowdedIff(bl.start, bl.State(), bl.lh, bl.outstanding, bl.committing, s);
    TakeBound(bl.start, bl.State(), bl.lh, bl.outstanding, bl.committing, s, b);
    hide Steady, Used;
    var r := bl.Bread(b);
    ok := r.Some?;
    if ok {
      TakeSteady(bl.start, old(bl.State()), bl.State(), bl.lh, bl.outstanding, bl.committing, s, r.value, b);
      PhaseSame(bl.start, s, s.(out := s.out + multiset{b}), bl.disk, bl.view, h);
    }
  }

  lemma TakeBound(start: nat, c: Contents, lh: seq<nat>, n: nat, cm: bool, s: Sys, b: nat)
    requires c.Ok() && Steady(start, c, lh, n, cm, s) && !Do(start, s, Take(b)).Disabled?
    ensures b < |c.disk|
  {
  }

  lemma HeldBuffer(start: nat, c: Contents, lh: seq<nat>, n: nat, cm: bool, s: Sys, b: nat)
    requires c.Ok() && Steady(start, c, lh, n, cm, s) && b in s.out
    ensures b in c.slot && c.slot[b] < NBUF && c.Holds(c.slot[b]) && c.bufs[c.slot[b]].blockno == b
    ensures c.held[c.slot[b]] == s.out[b] && c.dirty == s.dirty && c.pinned == Pinned(s)
  {
    HoldingLess(c, s.out, b);
  }

  method StepPut(bl: BlockLayer, b: nat, ghost s: Sys, ghost h: Disk)
    requires Tied(bl, s, h) && Do(bl.start, s, Put(b)).Next?
    modifies bl
    ensures Tied(bl, Do(bl.start, s, Put(b)).s, h)
    ensures bl.disk == old(bl.disk) && bl.trace == old(bl.trace)
  {
    hide Contents.Ok, Ring, Permutes, PhaseOk, Steady;
    HeldBuffer(bl.start, bl.State(), bl.lh, bl.outstanding, bl.committing, s, b);
    var i := bl.FindCached(b);
    bl.Brelse(i.value);
    PutSteady(bl.start, old(bl.State()), bl.lh, bl.outstanding, bl.committing, s, b);
    PhaseSame(bl.start, s, s.(out := s.out - multiset{b}), bl.disk, bl.view, h);
  }

  lemma PutSteady(start: nat, c: Contents, lh: seq<nat>, n: nat, cm: bool, s: Sys, b: nat)
    requires c.Ok() && Steady(start, c, lh, n, cm, s) && b in s.out && b in c.slot && c.slot[b] < NBUF
    requires |c.bufs| == |c.held| == NBUF && c.bufs[c.slot[b]].refcnt > 0 && c.held[c.slot[b]] > 0
    ensures Steady(start, Drop(c, c.slot[b]), lh, n, cm, s.(out := s.out - multiset{b}))
  {
    hide Contents.Ok, Holding;
    HoldingLess(c, s.out, b);
  }

  method StepChange(bl: BlockLayer, b: nat, x: Block, ghost s: Sys, ghost h: Disk)
    requires Tied(bl, s, h) && Home(bl.start, s) && s.phase.Idle? && Do(bl.start, s, Change(b, x)).Next?
    modifies bl
    ensures Tied(bl, Do(bl.start, s, Change(b, x)).s, h)
    ensures bl.disk == old(bl.disk) && bl.trace == old(bl.trace)
  {
    hide Contents.Ok, Ring, Permutes, Steady;
    HeldBuffer(bl.start, bl.State(), bl.lh, bl.outstanding, bl.committing, s, b);
    var i := bl.FindCached(b);
    bl.SetData(i.value, x);
    ChangeSteady(bl.start, old(bl.State()), bl.lh, bl.outstanding, bl.committing, s, b, x);
  }

  lemma ChangeSteady(start: nat, c: Contents, lh: seq<nat>, n: nat, cm: bool, s: Sys, b: nat, x: Block)
    requires c.Ok() && Steady(start, c, lh, n, cm, s) && b in c.slot && c.slot[b] < |c.bufs|
    requires c.bufs[c.slot[b]].blockno == b < |c.view| && b < |s.view| && Store(c, c.slot[b], x).Ok()
    ensures Steady(start, Store(c, c.slot[b], x), lh, n, cm, s.(view := s.view[b := x], dirty := s.dirty + {b}))
  {
    hide Contents.Ok, Holding, Kept, SameHome;
    var d := Store(c, c.slot[b], x);
    SlotsOf(c);
    StoreKept(c, c.slot[b], x);
    HoldingSame(c, d, s.out);
    HomeChanged(start, c.view, s.view, b, x);
  }

  lemma StoreKept(c: Contents, i: nat, x: Block)
    requires |c.bufs| == |c.held| == NBUF && i < NBUF && c.bufs[i].blockno < |c.view|
    ensures Kept(c, Store(c, i, x))
  {
  }

  lemma LogKept(c: Contents, lh: seq<nat>, i: nat)
    requires |c.bufs| == |c.held| == NBUF && i < NBUF
    ensures Kept(c, Cache.Log(c, lh, i))
  {
  }

  lemma HomeChanged(start: nat, d: Disk, e: Disk, b: nat, x: Block)
    requires SameHome(start, d, e) && b < |d|
    ensures SameHome(start, d[b := x], e[b := x])
  {
  }

  /** begin_op, end_op, and whatever of the protocol does not touch a block. */
  method StepProtocol(bl: BlockLayer, a: G.Action, ghost s: Sys, ghost h: Disk)
    requires Tied(bl, s, h) && !a.LogWrite? && Do(bl.start, s, Log(a)).Next? && s.g.outstanding == |s.g.running|
    modifies bl
    ensures Tied(bl, Do(bl.start, s, Log(a)).s, h)
    ensures bl.disk == old(bl.disk) && bl.trace == old(bl.trace)
  {
    hide Contents.Ok, Ring, Permutes, PhaseOk, Holding;
    match a {
      case TryBegin(_) =>
        var entered := bl.BeginOp();
      case EndOp(_) =>
        var panicked, last := bl.Leave();
      case CommitDone =>
        bl.Reopen();
      case _ =>
    }
    PhaseSame(bl.start, s, Do(bl.start, s, Log(a)).s, bl.disk, bl.view, h);
  }

  method StepLog(bl: BlockLayer, i: nat, b: nat, ghost s: Sys, ghost h: Disk) returns (ok: bool)
    requires Tied(bl, s, h) && Home(bl.start, s) && Orderly(s) && s.phase.Idle?
    requires !Do(bl.start, s, Log(G.LogWrite(i, b))).Disabled?
    modifies bl
    ensures ok <==> Do(bl.start, s, Log(G.LogWrite(i, b))).Next?
    ensures ok ==> Tied(bl, Do(bl.start, s, Log(G.LogWrite(i, b))).s, h)
    ensures bl.disk == old(bl.disk) && bl.trace == old(bl.trace)
  {
    hide Contents.Ok, Ring, Permutes, Holding, Steady, PhaseOk, Do, Home, Orderly;
    LogGoes(bl.start, bl.State(), bl.lh, bl.outstanding, bl.committing, s, i, b);
    HeldBuffer(bl.start, bl.State(), bl.lh, bl.outstanding, bl.committing, s, b);
    CachedAt(bl.State(), b);
    Pends(bl.start, bl.State(), bl.lh, bl.outstanding, bl.committing, s, h);
    var k := bl.FindCached(b);
    var r := bl.LogWrite(k.value);
    ok := r.Logged?;
    if ok {
      LogSteady(bl.start, old(bl.State()), bl.State(), old(bl.lh), bl.outstanding, bl.committing, s, i, b);
      LogPhase(bl.start, s, i, b, bl.disk, bl.view, h);
    }
  }

  /** Between commits the log on disk is empty and the header's blocks pinned. */
  lemma Pends(start: nat, c: Contents, lh: seq<nat>, n: nat, cm: bool, s: Sys, h: Disk)
    requires Steady(start, c, lh, n, cm, s) && Home(start, s) && Orderly(s) && s.phase.Idle?
    requires PhaseOk(start, s, c.disk, c.view, h)
    ensures |lh| <= LOGBLOCKS && (forall t :: 0 <= t < |lh| ==> lh[t] < |c.disk| && !InLog(start, lh[t]))
    ensures forall i, j :: 0 <= i < j < |lh| ==> lh[i] != lh[j]
    ensures c.pinned == Elems(lh) && (forall b :: b in c.dirty ==> !InLog(start, b))
    ensures start < |c.disk| && IsHeader(c.disk[start]) && Count(c.disk, start) == 0
  {
  }

  lemma LogGoes(start: nat, c: Contents, lh: seq<nat>, n: nat, cm: bool, s: Sys, i: nat, b: nat)
    requires Steady(start, c, lh, n, cm, s) && Home(start, s) && !Do(start, s, Log(G.LogWrite(i, b))).Disabled?
    ensures b in s.out && !InLog(start, b) && lh == s.g.lh
    ensures Do(start, s, Log(G.LogWrite(i, b))).Next? <==> |lh| < LOGBLOCKS && n >= 1
    ensures Do(start, s, Log(G.LogWrite(i, b))).Next? ==>
      var t := Do(start, s, Log(G.LogWrite(i, b))).s;
      t == s.(g := t.g, dirty := s.dirty - {b}) && t.g.lh == Entered(lh, b)
      && t.g.outstanding == n && t.g.committing == cm
  {
  }

  lemma LogPhase(start: nat, s: Sys, i: nat, b: nat, disk: Disk, view: Disk, h: Disk)
    requires PhaseOk(start, s, disk, view, h) && s.phase.Idle? && b < |disk| && |s.g.lh| < LOGBLOCKS
    requires Do(start, s, Log(G.LogWrite(i, b))).Next?
    requires Do(start, s, Log(G.LogWrite(i, b))).s.g.lh == Entered(s.g.lh, b)
    ensures PhaseOk(start, Do(start, s, Log(G.LogWrite(i, b))).s, disk, view, h)
  {
  }

  lemma LogSteady(start: nat, c: Contents, d: Contents, lh: seq<nat>, n: nat, cm: bool, s: Sys, i: nat, b: nat)
    requires c.Ok() && d.Ok() && Steady(start, c, lh, n, cm, s) && b in c.slot && c.slot[b] < |c.bufs|
    requires c.bufs[c.slot[b]].blockno == b && d == Cache.Log(c, lh, c.slot[b]) && s.phase.Idle?
    requires b < |c.disk| && !InLog(start, b) && |lh| < LOGBLOCKS
    requires Do(start, s, Log(G.LogWrite(i, b))).Next?
    requires var t := Do(start, s, Log(G.LogWrite(i, b))).s;
      t == s.(g := t.g, dirty := s.dirty - {b}) && t.g.lh == Entered(lh, b)
      && t.g.outstanding == n && t.g.committing == cm
    ensures Steady(start, d, Entered(lh, b), n, cm, Do(start, s, Log(G.LogWrite(i, b))).s)
  {
    hide Do, Contents.Ok, Holding, Kept, SameHome;
    SlotsOf(c);
    LogKept(c, lh, c.slot[b]);
    HoldingSame(c, d, s.out);
    EnteredOnce(lh, b);
    assert Elems(Entered(lh, b)) == Elems(lh) + {b};
  }

  // ---- commit ----

  /** The header on disk is not empty. */
  predicate Full(start: nat, d: Disk) {
    start < |d| && IsHeader(d[start]) && Count(d, start) > 0
  }

  /** What a crash right now would leave: recovery gives the blocks that were
      visible at the last header write. */
  ghost predicate CrashSafe(start: nat, d: Disk, s: Sys) {
    && LogOk(d, start) && s.saved != [] && SameHome(start, Recovered(d, start), s.saved[|s.saved| - 1])
    && (Full(start, d) <==> s.phase.Installing?)
  }

  lemma EmptyRecovers(start: nat, d: Disk, e: Disk)
    requires start + LOGBLOCKS < |d| && IsHeader(d[start]) && Count(d, start) == 0 && SameHome(start, d, e)
    ensures LogOk(d, start) && SameHome(start, Recovered(d, start), e)
  {
    assert Installed(d, start, 0) == d;
  }

  /** A turn of commit changes neither who holds what nor any visible block. */
  lemma TurnSteady(start: nat, c: Contents, d: Contents, lh: seq<nat>, n: nat, cm: bool, s: Sys, t: Sys)
    requires c.Ok() && d.Ok() && Kept(c, d) && Steady(start, c, lh, n, cm, s) && d.held == c.held
    requires |d.disk| == |c.disk| && SameHome(start, d.view, c.view) && t.g == s.g && t.out == s.out && t.view == s.view
    requires d.pinned == Pinned(t) && d.dirty == t.dirty
    ensures Steady(start, d, lh, n, cm, t)
  {
    hide Contents.Ok, Holding, Kept, Pinned;
    HoldingSame(c, d, s.out);
  }

  lemma CommitFacts(start: nat, c: Contents, lh: seq<nat>, n: nat, cm: bool, s: Sys, h: Disk)
    requires c.Ok() && Steady(start, c, lh, n, cm, s) && Orderly(s) && Home(start, s) && !s.phase.Idle?
    requires PhaseOk(start, s, c.disk, c.view, h)
    ensures lh == s.g.lh != [] && |lh| <= LOGBLOCKS && c.dirty == {} == s.dirty && c.pinned == Pinned(s)
    ensures s.phase.tail <= |lh| && start + LOGBLOCKS < |c.disk| == |c.view|
    ensures (forall t :: 0 <= t < |lh| ==> lh[t] < |c.disk| && !InLog(start, lh[t]))
    ensures forall i, j :: 0 <= i < j < |lh| ==> lh[i] != lh[j]
    ensures s.phase.Writing? ==> c.pinned == Elems(lh)
    ensures s.phase.Installing? ==> c.pinned == Elems(lh[s.phase.tail..])
  {
  }

  lemma WritePhase(start: nat, s: Sys, disk: Disk, view: Disk, h: Disk)
    requires PhaseOk(start, s, disk, view, h) && s.phase.Writing? && s.phase.tail < |s.g.lh|
    requires forall t :: 0 <= t < |s.g.lh| ==> !InLog(start, s.g.lh[t])
    ensures var t := s.phase.tail; var x := view[s.g.lh[t]]; var d := disk[start + t + 1 := x];
      && PhaseOk(start, s.(phase := Writing(t + 1)), d, view[start + t + 1 := x], h)
      && CrashSafe(start, d, s) && SameHome(start, view[start + t + 1 := x], view)
  {
    var t := s.phase.tail;
    var d := disk[start + t + 1 := view[s.g.lh[t]]];
    EmptyRecovers(start, d, s.saved[|s.saved| - 1]);
  }

  method TurnWrite(bl: BlockLayer, ghost s: Sys, ghost h: Disk, t: nat) returns (ok: bool)
    requires Tied(bl, s, h) && Home(bl.start, s) && Orderly(s) && s.phase == Writing(t) && t < |s.g.lh|
    modifies bl
    ensures ok <==> !Crowded(s)
    ensures ok ==> Tied(bl, s.(phase := Writing(t + 1)), h) && bl.trace == old(bl.trace) + [bl.disk]
    ensures ok ==> CrashSafe(bl.start, bl.disk, s.(phase := Writing(t + 1)))
    ensures !ok ==> bl.trace == old(bl.trace)
  {
    hide Contents.Ok, Ring, Permutes, AllBusy, Crowded, PhaseOk, Home, Orderly, Steady, SameHome, HomeHeld, CrashSafe;
    CommitFacts(bl.start, bl.State(), bl.lh, bl.outstanding, bl.committing, s, h);
    CrowdedIff(bl.start, bl.State(), bl.lh, bl.outstanding, bl.committing, s);
    HomePinned(bl.lh, bl.start);
    LogTurn(bl.start, bl.State(), t);
    WritePhase(bl.start, s, bl.disk, bl.view, h);
    ok := bl.WriteLogBlock(t);
    if ok {
      ghost var u := s.(phase := Writing(t + 1));
      TurnSteady(bl.start, old(bl.State()), bl.State(), bl.lh, bl.outstanding, bl.committing, s, u);
      SafeLater(bl.start, bl.disk, s, u);
    }
  }

  lemma SafeLater(start: nat, d: Disk, s: Sys, t: Sys)
    requires CrashSafe(start, d, s) && t.saved == s.saved && (t.phase.Installing? <==> s.phase.Installing?)
    ensures CrashSafe(start, d, t)
  {
  }

  /** Writing the header makes everything visible durable. */
  lemma HeadPhase(start: nat, c: Contents, s: Sys, h: Disk, lh: seq<nat>)
    requires c.Ok() && PhaseOk(start, s, c.disk, c.view, h) && s.phase == Writing(|lh|) && lh == s.g.lh
    requires c.pinned == Elems(lh) && c.dirty == {} && SameHome(start, c.view, s.view)
    requires forall t :: 0 <= t < |lh| ==> !InLog(start, lh[t])
    ensures var d := c.disk[start := HeadBlock(c.disk[start], lh)];
            var u := s.(phase := Installing(0), saved := s.saved + [s.view]);
      && PhaseOk(start, u, d, c.view[start := d[start]], d) && CrashSafe(start, d, u)
      && SameHome(start, c.view[start := d[start]], c.view)
  {
    hide Contents.Ok, Recovered;
    var d := c.disk[start := HeadBlock(c.disk[start], lh)];
    HeadRecovers(start, c, lh);
    assert Installed(d, start, 0) == d;
  }

  lemma HeadRecovers(start: nat, c: Contents, lh: seq<nat>)
    requires c.Ok() && start + LOGBLOCKS < |c.disk| == |c.view| && IsHeader(c.disk[start]) && |lh| <= LOGBLOCKS
    requires c.pinned == Elems(lh) && c.dirty == {}
    requires forall t :: 0 <= t < |lh| ==> lh[t] < |c.disk| && !InLog(start, lh[t])
    requires forall t :: 0 <= t < |lh| ==> LogEntry(c.disk, start, t) == c.view[lh[t]]
    ensures var d := c.disk[start := HeadBlock(c.disk[start], lh)];
      HeaderIs(start, d, lh) && SameHome(start, Recovered(d, start), c.view)
  {
    var d := c.disk[start := HeadBlock(c.disk[start], lh)];
    forall b | 0 <= b < |d| && !InLog(start, b) && b !in lh ensures d[b] == c.view[b] {
      Clean(c, b);
    }
    hide Contents.Ok;
    HeadWritten(start, c.disk, lh);
    RecoversToView(start, d, c.view, lh);
  }

  method TurnHead(bl: BlockLayer, ghost s: Sys, ghost h: Disk) returns (ok: bool)
    requires Tied(bl, s, h) && Home(bl.start, s) && Orderly(s) && s.phase == Writing(|s.g.lh|)
    modifies bl
    ensures ok <==> !Crowded(s)
    ensures ok ==> Tied(bl, s.(phase := Installing(0), saved := s.saved + [s.view]), bl.disk)
    ensures ok ==> CrashSafe(bl.start, bl.disk, s.(phase := Installing(0), saved := s.saved + [s.view]))
    ensures ok ==> bl.trace == old(bl.trace) + [bl.disk]
    ensures !ok ==> bl.trace == old(bl.trace)
  {
    hide Contents.Ok, Ring, Permutes, AllBusy, Crowded, PhaseOk, Home, Orderly, SameHome, HomeHeld, CrashSafe, Holding;
    CommitFacts(bl.start, bl.State(), bl.lh, bl.outstanding, bl.committing, s, h);
    CrowdedIff(bl.start, bl.State(), bl.lh, bl.outstanding, bl.committing, s);
    HomePinned(bl.lh, bl.start);
    LogTurn(bl.start, bl.State(), 0);
    HeadPhase(bl.start, bl.State(), s, h, bl.lh);
    ghost var u := s.(phase := Installing(0), saved := s.saved + [s.view]);
    assert bl.lh[0..] == bl.lh;
    hide Steady;
    ok := bl.WriteHead();
    if ok {
      TurnSteady(bl.start, old(bl.State()), bl.State(), bl.lh, bl.outstanding, bl.committing, s, u);
    }
  }

  lemma InstallPhaseOk(start: nat, s: Sys, disk: Disk, view: Disk, h: Disk)
    requires PhaseOk(start, s, disk, view, h) && s.phase.Installing? && s.phase.tail < |s.g.lh|
    ensures var t := s.phase.tail; var x := disk[start + t + 1]; var d := disk[s.g.lh[t] := x];
      && PhaseOk(start, s.(phase := Installing(t + 1)), d, view, h) && CrashSafe(start, d, s)
      && view[s.g.lh[t] := x] == view
  {
    var t := s.phase.tail;
    var d := disk[s.g.lh[t] := disk[start + t + 1]];
    assert disk[start + t + 1] == h[start + t + 1] && LogEntry(h, start, t) == view[s.g.lh[t]];
    assert Entry(h[start], t) == s.g.lh[t];
    assert d == Installed(h, start, t + 1);
    RecoveryPointRecovers(start, h, d);
    hide Recovered;
    assert d[start] == h[start];
  }

  method TurnInstall(bl: BlockLayer, ghost s: Sys, ghost h: Disk, t: nat) returns (ok: bool)
    requires Tied(bl, s, h) && Home(bl.start, s) && Orderly(s) && s.phase == Installing(t) && t < |s.g.lh|
    modifies bl
    ensures ok <==> !Crowded(s)
    ensures ok ==> Tied(bl, s.(phase := Installing(t + 1)), h) && bl.trace == old(bl.trace) + [bl.disk]
    ensures ok ==> CrashSafe(bl.start, bl.disk, s.(phase := Installing(t + 1)))
    ensures !ok ==> bl.trace == old(bl.trace)
  {
    hide Contents.Ok, Ring, Permutes, AllBusy, Crowded, PhaseOk, Home, Orderly, Steady, HomeHeld, CrashSafe, Elems;
    CommitFacts(bl.start, bl.State(), bl.lh, bl.outstanding, bl.committing, s, h);
    CrowdedIff(bl.start, bl.State(), bl.lh, bl.outstanding, bl.committing, s);
    TailHome(bl.start, bl.lh, t);
    LogTurn(bl.start, bl.State(), t);
    NextPinned(bl.lh, t);
    LogUnpinned(bl.lh, t, bl.start);
    InstallPhaseOk(bl.start, s, bl.disk, bl.view, h);
    ok := bl.InstallBlock(t, false);
    if ok {
      ghost var u := s.(phase := Installing(t + 1));
      TurnSteady(bl.start, old(bl.State()), bl.State(), bl.lh, bl.outstanding, bl.committing, s, u);
      SafeLater(bl.start, bl.disk, s, u);
    }
  }

  lemma TailHome(start: nat, lh: seq<nat>, t: nat)
    requires t <= |lh| && forall i :: 0 <= i < |lh| ==> !InLog(start, lh[i])
    ensures forall b :: b in Elems(lh[t..]) ==> !InLog(start, b)
  {
  }

  /** Clearing the header ends the transaction. */
  lemma ClearPhase(start: nat, c: Contents, s: Sys, h: Disk, t: Sys)
    requires c.Ok() && PhaseOk(start, s, c.disk, c.view, h) && s.phase == Installing(|s.g.lh|)
    requires c.pinned == {} && c.dirty == {} && t.phase.Idle? && t.saved == s.saved && t.g.lh == []
    ensures var d := c.disk[start := HeadBlock(c.disk[start], [])];
      && PhaseOk(start, t, d, c.view[start := d[start]], h) && CrashSafe(start, d, t)
      && SameHome(start, c.view[start := d[start]], c.view)
  {
    var d := c.disk[start := HeadBlock(c.disk[start], [])];
    AllClean(c);
    HeadWritten(start, c.disk, []);
    assert d == Recovered(h, start);
    RecoverTwice(h, start);
    hide Contents.Ok, Recovered;
    assert Count(d, start) == 0;
  }

  method TurnClear(bl: BlockLayer, ghost s: Sys, ghost h: Disk) returns (ok: bool)
    requires Tied(bl, s, h) && Home(bl.start, s) && Orderly(s) && s.phase == Installing(|s.g.lh|)
    requires G.Do(s.g, G.Commit).Next?
    modifies bl
    ensures ok <==> !Crowded(s)
    ensures ok ==> Tied(bl, Commit(s).s, h) && CrashSafe(bl.start, bl.disk, Commit(s).s)
    ensures ok ==> bl.trace == old(bl.trace) + [bl.disk]
    ensures !ok ==> bl.trace == old(bl.trace)
  {
    hide Contents.Ok, Ring, Permutes, AllBusy, Crowded, PhaseOk, Home, Orderly, Steady, HomeHeld, CrashSafe;
    CommitFacts(bl.start, bl.State(), bl.lh, bl.outstanding, bl.committing, s, h);
    CrowdedIff(bl.start, bl.State(), bl.lh, bl.outstanding, bl.committing, s);
    assert bl.lh[|bl.lh|..] == [];
    LogTurn(bl.start, bl.State(), 0);
    ghost var u := Commit(s).s;
    ClearPhase(bl.start, bl.State(), s, h, u);
    bl.lh := [];
    ok := bl.WriteHead();
    if ok {
      ClearSteady(bl.start, old(bl.State()), bl.State(), old(bl.lh), bl.outstanding, bl.committing, s);
    }
  }

  lemma ClearSteady(start: nat, c: Contents, d: Contents, lh: seq<nat>, n: nat, cm: bool, s: Sys)
    requires c.Ok() && d.Ok() && Kept(c, d) && Steady(start, c, lh, n, cm, s) && d.held == c.held
    requires |d.disk| == |c.disk| && SameHome(start, d.view, c.view) && G.Do(s.g, G.Commit).Next?
    requires d.pinned == {} && d.dirty == c.dirty
    ensures Steady(start, d, [], n, cm, Commit(s).s)
  {
    hide Contents.Ok, Holding, Kept;
    HoldingSame(c, d, s.out);
  }

  // ---- whole schedules ----

  /** The number of header writes that made a transaction durable. */
  function Headers(start: nat, trace: seq<Disk>): nat {
    if trace == [] then 0
    else
      var n := |trace| - 1;
      Headers(start, trace[..n]) + if Full(start, trace[n]) && (n == 0 || !Full(start, trace[n - 1])) then 1 else 0
  }

  /** A crash after the n-th write: recovery gives the blocks that were visible
      at the last header write before it. */
  ghost predicate SafeAt(start: nat, saved: seq<Disk>, trace: seq<Disk>, n: nat)
    requires n < |trace|
  {
    var k := Headers(start, trace[..n + 1]);
    LogOk(trace[n], start) && k < |saved| && SameHome(start, Recovered(trace[n], start), saved[k])
  }

  /** A crash after any of the writes. */
  ghost predicate Durable(start: nat, saved: seq<Disk>, trace: seq<Disk>) {
    forall n :: 0 <= n < |trace| ==> SafeAt(start, saved, trace, n)
  }

  /** The machine is where the trace says. */
  ghost predicate Current(start: nat, s: Sys, trace: seq<Disk>) {
    && s.saved != [] && Headers(start, trace) == |s.saved| - 1
    && (s.phase.Installing? <==> trace != [] && Full(start, trace[|trace| - 1]))
  }

  lemma DurableMore(start: nat, s: Sys, t: Sys, trace: seq<Disk>, d: Disk)
    requires Durable(start, s.saved, trace) && Current(start, s, trace) && CrashSafe(start, d, t)
    requires t.saved == s.saved + if t.phase.Installing? && !s.phase.Installing? then [t.view] else []
    ensures Durable(start, t.saved, trace + [d]) && Current(start, t, trace + [d])
  {
    var more := trace + [d];
    assert more[..|trace|] == trace && more[..|trace| + 1] == more;
    forall n | 0 <= n < |more| ensures SafeAt(start, t.saved, more, n) {
      if n < |trace| {
        assert SafeAt(start, s.saved, trace, n);
        assert more[..n + 1] == trace[..n + 1];
      }
    }
  }

  lemma Waited(start: nat, s: Sys, t: Sys, trace: seq<Disk>)
    requires Current(start, s, trace) && t.saved == s.saved && (t.phase.Installing? <==> s.phase.Installing?)
    ensures Current(start, t, trace)
  {
  }

  lemma NoOtherPanic(start: nat, k: nat, n: nat, s: Sys, m: Move)
    requires LogMachine.Inv(start, k, n, s) && Allowed(k, n, s, m) && !Do(start, s, m).Disabled?
    ensures m.Log? && !m.a.LogWrite? ==> Do(start, s, m).Next?
  {
    if m.Log? {
      G.StepSafe(k, s.g, m.a);
    }
  }

  lemma InvFacts(start: nat, k: nat, n: nat, s: Sys)
    requires LogMachine.Inv(start, k, n, s)
    ensures s.g.outstanding == |s.g.running| && (s.g.committing ==> s.g.running == []) && Home(start, s) && Orderly(s)
  {
  }

  lemma SameHeader(bl: BlockLayer, s: Sys, h: Disk)
    requires Tied(bl, s, h)
    ensures bl.lh == s.g.lh
  {
  }

  lemma TurnDo(start: nat, s: Sys)
    requires Orderly(s) && !s.phase.Idle? && !Do(start, s, Turn).Disabled?
    ensures s.phase.tail <= |s.g.lh|
    ensures Crowded(s) ==> Do(start, s, Turn) == NoBuffers
    ensures !Crowded(s) && s.phase.tail < |s.g.lh| ==>
              Do(start, s, Turn) == Next(s.(phase := s.phase.(tail := s.phase.tail + 1)))
    ensures !Crowded(s) && s.phase == Writing(|s.g.lh|) ==>
              Do(start, s, Turn) == Next(s.(phase := Installing(0), saved := s.saved + [s.view]))
    ensures s.phase == Installing(|s.g.lh|) ==> G.Do(s.g, G.Commit).Next?
    ensures !Crowded(s) && s.phase == Installing(|s.g.lh|) ==> Do(start, s, Turn) == Commit(s) && Commit(s).Next?
  {
    hide Crowded;
  }

  /** A turn of commit. */
  method StepTurn(bl: BlockLayer, phase: Phase, ghost s: Sys, ghost h: Disk) returns (ok: bool, ghost g: Disk)
    requires Tied(bl, s, h) && Home(bl.start, s) && Orderly(s) && phase == s.phase && !phase.Idle?
    requires !Do(bl.start, s, Turn).Disabled?
    modifies bl
    ensures ok <==> Do(bl.start, s, Turn).Next?
    ensures ok ==> Tied(bl, Do(bl.start, s, Turn).s, g) && CrashSafe(bl.start, bl.disk, Do(bl.start, s, Turn).s)
    ensures bl.trace == old(bl.trace) + if ok then [bl.disk] else []
  {
    hide Tied, Home, Orderly, CrashSafe, Crowded, Do, Commit;
    SameHeader(bl, s, h);
    TurnDo(bl.start, s);
    g := h;
    if phase.tail < |bl.lh| {
      if phase.Writing? {
        ok := TurnWrite(bl, s, h, phase.tail);
      } else {
        ok := TurnInstall(bl, s, h, phase.tail);
      }
    } else if phase.Writing? {
      ok := TurnHead(bl, s, h);
      g := bl.disk;
    } else {
      ok := TurnClear(bl, s, h);
    }
  }

  /** Where commit is after a move. */
  function After(lh: seq<nat>, phase: Phase, m: Move): Phase {
    if !m.Turn? then phase
    else if phase.Idle? then if lh == [] then Idle else Writing(0)
    else if phase.tail < |lh| then phase.(tail := phase.tail + 1)
    else if phase.Writing? then Installing(0)
    else Idle
  }

  lemma AfterIs(start: nat, s: Sys, m: Move)
    requires Do(start, s, m).Next?
    ensures After(s.g.lh, s.phase, m) == Do(start, s, m).s.phase
    ensures !m.Turn? || s.phase.Idle? ==> Do(start, s, m).s.saved == s.saved
    ensures m.Turn? && !s.phase.Idle? ==>
      var t := Do(start, s, m).s;
      t.saved == s.saved + if t.phase.Installing? && !s.phase.Installing? then [t.view] else []
  {
  }

  /** Commit begins: with an empty transaction it is over at once. */
  lemma BeginTurn(bl: BlockLayer, s: Sys, h: Disk)
    requires Tied(bl, s, h) && s.phase.Idle? && !Do(bl.start, s, Turn).Disabled?
    ensures Do(bl.start, s, Turn).Next? && Tied(bl, Do(bl.start, s, Turn).s, h)
  {
    hide Contents.Ok, Ring, Permutes, Holding;
  }

  /** One move of a process, or a step of the protocol. */
  method StepOther(bl: BlockLayer, m: Move, ghost s: Sys, ghost h: Disk) returns (ok: bool)
    requires Tied(bl, s, h) && Home(bl.start, s) && Orderly(s) && !m.Turn? && !Do(bl.start, s, m).Disabled?
    requires s.g.outstanding == |s.g.running| && (s.g.committing ==> s.g.running == [])
    requires m.Log? && !m.a.LogWrite? ==> Do(bl.start, s, m).Next?
    modifies bl
    ensures ok <==> Do(bl.start, s, m).Next?
    ensures ok ==> Tied(bl, Do(bl.start, s, m).s, h)
    ensures bl.trace == old(bl.trace)
  {
    BusyIdle(bl.start, s, m);
    hide Tied, Home, Orderly;
    match m {
      case Take(b) =>
        hide Do;
        ok := StepTake(bl, b, s, h);
      case Put(b) =>
        StepPut(bl, b, s, h);
        ok := true;
      case Change(b, x) =>
        StepChange(bl, b, x, s, h);
        ok := true;
      case Log(a) =>
        hide Do;
        if a.LogWrite? {
          ok := StepLog(bl, a.i, a.b, s, h);
        } else {
          StepProtocol(bl, a, s, h);
          ok := true;
        }
    }
  }

  /** Operations run only between commits. */
  lemma BusyIdle(start: nat, s: Sys, m: Move)
    requires Orderly(s) && s.g.outstanding == |s.g.running| && (s.g.committing ==> s.g.running == [])
    requires !Do(start, s, m).Disabled?
    ensures m.Change? || (m.Log? && m.a.LogWrite?) ==> s.phase.Idle?
  {
  }

  /** One move, on the block layer: it is the machine's, and it fails exactly when
      the machine panics; and a crash after any write so far is safe. */
  method Step(bl: BlockLayer, m: Move, phase: Phase, ghost k: nat, ghost n: nat, ghost s: Sys, ghost h: Disk,
              ghost base: nat) returns (ok: bool, next: Phase, ghost g: Disk)
    requires Tied(bl, s, h) && LogMachine.Inv(bl.start, k, n, s) && Allowed(k, n, s, m) && phase == s.phase
    requires !Do(bl.start, s, m).Disabled? && base <= |bl.trace|
    requires Durable(bl.start, s.saved, bl.trace[base..]) && Current(bl.start, s, bl.trace[base..])
    modifies bl
    ensures ok <==> Do(bl.start, s, m).Next?
    ensures base <= |bl.trace|
    ensures ok ==>
              var t := Do(bl.start, s, m).s;
              && Tied(bl, t, g) && next == t.phase && Current(bl.start, t, bl.trace[base..])
              && Durable(bl.start, t.saved, bl.trace[base..])
    ensures !ok ==> Durable(bl.start, s.saved, bl.trace[base..])
  {
    hide Tied, LogMachine.Inv, Durable, Current, Home, Orderly, Allowed, Do, CrashSafe;
    InvFacts(bl.start, k, n, s);
    NoOtherPanic(bl.start, k, n, s, m);
    SameHeader(bl, s, h);
    next, g := After(bl.lh, phase, m), h;
    if !m.Turn? {
      ok := StepOther(bl, m, s, h);
    } else if phase.Idle? {
      BeginTurn(bl, s, h);
      ok := true;
    } else {
      ok, g := StepTurn(bl, phase, s, h);
    }
    if ok {
      AfterIs(bl.start, s, m);
      ghost var t := Do(bl.start, s, m).s;
      if m.Turn? && !phase.Idle? {
        assert bl.trace[base..] == old(bl.trace)[base..] + [bl.disk];
        DurableMore(bl.start, s, t, old(bl.trace)[base..], bl.disk);
      } else {
        Waited(bl.start, s, t, bl.trace[base..]);
      }
    } else {
      assert bl.trace == old(bl.trace);
    }
  }

  /** A block layer that has just come up. */
  ghost predicate Up(bl: BlockLayer)
    reads bl
  {
    && bl.Valid() && bl.NothingHeld() && bl.dirty == {} && bl.lh == []
    && bl.outstanding == 0 && !bl.committing && bl.view == bl.disk
  }

  lemma UpTied(bl: BlockLayer)
    requires Up(bl)
    ensures Tied(bl, Init(bl.view), bl.disk)
    ensures Durable(bl.start, [bl.view], bl.trace[|bl.trace|..])
    ensures Current(bl.start, Init(bl.view), bl.trace[|bl.trace|..])
  {
    hide Ring, Permutes;
    assert bl.trace[|bl.trace|..] == [];
    SlotsOf(bl.State());
    hide Contents.Ok;
  }

  lemma ExecSnoc(start: nat, k: nat, n: nat, s: Sys, moves: seq<Move>, d: nat, t: Sys)
    requires d < |moves| && Exec(start, k, n, s, moves[..d]) == Next(t)
    requires Exec(start, k, n, s, moves) == Exec(start, k, n, t, moves[d..])
    ensures Exec(start, k, n, t, moves[d..]) ==
              if !Allowed(k, n, t, moves[d]) then Disabled
              else if Do(start, t, moves[d]).Next? then Exec(start, k, n, Do(start, t, moves[d]).s, moves[d + 1..])
              else Do(start, t, moves[d])
    ensures Allowed(k, n, t, moves[d]) ==> Exec(start, k, n, s, moves[..d + 1]) == Do(start, t, moves[d])
  {
    hide Allowed, Do;
    assert moves[d..][0] == moves[d] && moves[d..][1..] == moves[d + 1..];
    assert moves[..d + 1] == moves[..d] + [moves[d]];
    ExecJoin(start, k, n, s, moves[..d], t, moves[d]);
  }

  lemma {:induction false} ExecJoin(start: nat, k: nat, n: nat, s: Sys, moves: seq<Move>, t: Sys, m: Move)
    requires Exec(start, k, n, s, moves) == Next(t)
    ensures Allowed(k, n, t, m) ==> Exec(start, k, n, s, moves + [m]) == Do(start, t, m)
    decreases |moves|
  {
    hide Allowed, Do;
    if moves == [] {
      assert moves + [m] == [m];
      assert Do(start, s, m).Next? ==> Exec(start, k, n, Do(start, s, m).s, [m][1..]) == Do(start, s, m);
    } else {
      assert (moves + [m])[1..] == moves[1..] + [m];
      ExecJoin(start, k, n, Do(start, s, moves[0]).s, moves[1..], t, m);
    }
  }

  /** A whole schedule on a block layer that has just come up: it runs as the
      machine does, to its end or to the machine's first panic; and a crash after
      any block write on the way leaves a disk that recovers to the blocks that
      were visible when the last header write before the crash was made. */
  method RunLog(bl: BlockLayer, k: nat, n: nat, moves: seq<Move>) returns (done: nat, ghost s: Sys)
    requires Up(bl) && !Exec(bl.start, k, n, Init(bl.view), moves).Disabled?
    modifies bl
    ensures done <= |moves| && Exec(bl.start, k, n, Init(old(bl.view)), moves[..done]) == Next(s)
    ensures done == |moves| <==> Exec(bl.start, k, n, Init(old(bl.view)), moves).Next?
    ensures done == |moves| ==> SameHome(bl.start, bl.view, s.view)
    ensures done < |moves| ==> Do(bl.start, s, moves[done]) == Exec(bl.start, k, n, Init(old(bl.view)), moves)
    ensures |old(bl.trace)| <= |bl.trace| && Durable(bl.start, s.saved, bl.trace[|old(bl.trace)|..])
    ensures k > 0 && MAXOPBLOCKS + 2 * k + n < NBUF ==> done == |moves|
  {
    hide Tied, Durable, Current, LogMachine.Inv, Allowed, Do, Exec;
    UpTied(bl);
    InitInv(bl.start, k, n, bl.view);
    done, s := 0, Init(bl.view);
    ghost var base, start, first, h := |bl.trace|, bl.start, Init(bl.view), bl.disk;
    if k > 0 && MAXOPBLOCKS + 2 * k + n < NBUF {
      ExecSafe(start, k, n, first, moves);
    }
    var phase := Idle;
    ExecNone(start, k, n, first, moves);
    while done < |moves|
      invariant done <= |moves| && start == bl.start && phase == s.phase
      invariant Tied(bl, s, h) && LogMachine.Inv(start, k, n, s)
      invariant Exec(start, k, n, first, moves[..done]) == Next(s)
      invariant Exec(start, k, n, first, moves) == Exec(start, k, n, s, moves[done..])
      invariant base <= |bl.trace| && Durable(start, s.saved, bl.trace[base..]) && Current(start, s, bl.trace[base..])
    {
      ExecSnoc(start, k, n, first, moves, done, s);
      var ok;
      ok, phase, h := Step(bl, moves[done], phase, k, n, s, h, base);
      if !ok {
        return;
      }
      LogMachine.StepInv(start, k, n, s, moves[done]);
      s := Do(start, s, moves[done]).s;
      done := done + 1;
    }
    ExecEnd(start, k, n, first, s, moves);
    SeenAs(bl, s, h);
  }

  lemma ExecNone(start: nat, k: nat, n: nat, s: Sys, moves: seq<Move>)
    ensures Exec(start, k, n, s, moves[..0]) == Next(s)
    ensures Exec(start, k, n, s, moves[0..]) == Exec(start, k, n, s, moves)
  {
    assert moves[0..] == moves;
  }

  lemma ExecEnd(start: nat, k: nat, n: nat, s: Sys, t: Sys, moves: seq<Move>)
    requires Exec(start, k, n, s, moves[..|moves|]) == Next(t)
    ensures Exec(start, k, n, s, moves) == Next(t)
  {
    assert moves[..|moves|] == moves;
  }

  lemma SeenAs(bl: BlockLayer, s: Sys, h: Disk)
    requires Tied(bl, s, h)
    ensures SameHome(bl.start, bl.view, s.view)
  {
  }

  /** A crash after any write of a run, then any number of crashes while it is
      recovered. */
  lemma CrashInRun(start: nat, saved: seq<Disk>, trace: seq<Disk>, n: nat, ds: seq<Disk>)
    requires Durable(start, saved, trace) && n < |trace|
    requires |ds| > 0 && ds[0] == trace[n] && CrashChain(start, ds)
    ensures LogOk(ds[|ds| - 1], start) && Headers(start, trace[..n + 1]) < |saved|
    ensures SameHome(start, Recovered(ds[|ds| - 1], start), saved[Headers(start, trace[..n + 1])])
  {
    assert SafeAt(start, saved, trace, n);
    ChainRecovers(start, ds);
  }

  // ---- the panics are real ----

  function Zero(): Block {
    Block(seq(WORDS, _ => 0))
  }

  /** A system that has come up on an empty disk with the log at its start. */
  method EmptyDisk(size: nat) returns (bl: BlockLayer)
    requires size > LOGBLOCKS
    ensures fresh(bl) && Up(bl) && bl.start == 0 && |bl.view| == size
  {
    hide Contents.Ok, Ring, Permutes, Recovered;
    bl := new BlockLayer(seq(size, _ => Zero()), 0);
    RecoveredSize(bl.disk, 0);
    bl.Recover();
  }

  lemma RecoveredSize(d: Disk, start: nat)
    requires LogOk(d, start)
    ensures |Recovered(d, start)| == |d|
  {
  }

  /** On an empty disk, operations that add at most nine blocks each, and two
      processes that read a block each: the commit of the 28 blocks finds no
      buffer and panics. */
  method CommitPanics() returns (bl: BlockLayer, done: nat)
    ensures fresh(bl) && done < |Jam(MAXOPBLOCKS - 1, LOGBLOCKS + 1, 2)|
  {
    hide Exec, Jam, Up;
    bl := EmptyDisk(LOGBLOCKS + 1 + NBUF);
    JamPanics(0, MAXOPBLOCKS - 1, 2, MAXOPBLOCKS - 1, bl.view);
    var moves := Jam(MAXOPBLOCKS - 1, LOGBLOCKS + 1, 2);
    ghost var s;
    done, s := RunLog(bl, MAXOPBLOCKS - 1, 2, moves);
  }
}
