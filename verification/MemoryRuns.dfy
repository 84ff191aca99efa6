/** Whole runs of the kernel's memory operations, from boot on, against the
    eager machine: what the processes see, and that reference counts stay exact
    but for the references that shm_open loses. */
module MemoryRuns {
  import opened Common
  import opened PageRefs
  import opened CopyOnWrite
  import opened Kernel = Memory
  import Exec
  import Program = ProgramImage

  /** The eager machine: memory, the size of every live space, and the pages
      that stem from shm_open, whose contents it does not follow. */
  datatype Machine = Machine(mem: Eager, sz: map<nat, nat>, tainted: set<UPage>)

  /** A system call, store or load of the process with address space space. */
  datatype Op =
    | OpInit(space: nat)                            // userinit
    | OpFork(space: nat, child: nat)
    | OpStore(space: nat, va: nat, src: seq<nat>)   // a store, or a copyout of several bytes
    | OpLoad(space: nat, va: nat, len: nat)         // a load, or a copyin of several bytes
    | OpGrow(space: nat, n: int)
    | OpLazy(space: nat, more: nat)
    | OpExit(space: nat)
    | OpExec(space: nat, next: nat, program: seq<Program.Header>, argv: seq<seq<nat>>)
    | OpShmOpen(space: nat, id: int)
    | OpShmClose(space: nat, id: int)
    | OpLoadDisk(space: nat)
    | OpDisk(space: nat, idx: nat, alloc: bool)     // rd_walk, in rd_read or rd_write
    | OpUnloadDisk(space: nat)

  /** A failed copyout may have stored the first n bytes, a failed copyin read
      them. Got: the bytes a load or copyin delivers. Lost: shm_open has lost a
      reference to page pa. Panicked: it has panicked with one in hand. */
  datatype Outcome = Done | Failed(n: nat) | Got(bytes: seq<nat>) | Lost(pa: Pa) | Panicked(pa: Pa)

  function EagerDo(m: Machine, op: Op, out: Outcome): Machine {
    if op.OpInit? then
      if out.Done? then m.(sz := m.sz[op.space := 0]) else m
    else if op.space !in m.sz then m
    else match op
      case OpFork(space, child) =>
        if out.Failed? then m
        else Machine(Copied(m.mem, space, child, PagesOf(m.sz[space])), m.sz[child := m.sz[space]],
                     Spread(m.tainted, space, child, PagesOf(m.sz[space])))
      case OpStore(space, va, src) =>
        m.(mem := Stored(m.mem, space, va,
                         if out.Done? then src else if out.Failed? && out.n <= |src| then src[..out.n] else []))
      case OpGrow(space, n) =>
        if out.Failed? then m
        else if n > 0 then m.(sz := m.sz[space := m.sz[space] + n])
        else
          var to := if m.sz[space] + n < 0 then m.sz[space] else m.sz[space] + n;
          Machine(Dropped(m.mem, space, PagesOf(to), PagesOf(m.sz[space])), m.sz[space := to],
                  Cleaned(m.tainted, space, PagesOf(to), PagesOf(m.sz[space])))
      case OpLazy(space, n) =>
        if out.Failed? then m else m.(sz := m.sz[space := m.sz[space] + n])
      case OpExit(space) =>
        Machine(Dropped(m.mem, space, 0, PagesOf(m.sz[space])), m.sz - {space},
                Cleaned(m.tainted, space, 0, PagesOf(m.sz[space])))
      case OpExec(space, next, program, argv) =>
        if !out.Done? || !Program.Runs(program, argv) then m
        else Machine(Dropped(Program.Image(m.mem, next, program, argv), space, 0, PagesOf(m.sz[space])),
                     (m.sz - {space})[next := Program.Top(program)],
                     Cleaned(m.tainted, space, 0, PagesOf(m.sz[space])))
      case OpShmOpen(space, id) =>
        if !out.Done? then m
        else m.(sz := m.sz[space := PagesOf(m.sz[space]) * PGSIZE + PGSIZE],
                tainted := m.tainted + {UPage(space, PagesOf(m.sz[space]))})
      case _ => m
  }

  /** The state is the eager machine's: the same sizes, the same pages out of
      shm_open, and every other page reads the same. */
  ghost predicate Matches(s: State, sz: map<nat, nat>, m: Machine) {
    Refines(s, m.mem) && m.sz == sz && m.tainted == s.tainted
  }

  function EagerRun(m: Machine, ops: seq<Op>, outs: seq<Outcome>): Machine
    requires |ops| == |outs|
    decreases |ops|
  {
    if ops == [] then m else EagerRun(EagerDo(m, ops[0], outs[0]), ops[1..], outs[1..])
  }

  lemma {:induction false} EagerSnoc(m: Machine, ops: seq<Op>, outs: seq<Outcome>, op: Op, out: Outcome)
    requires |ops| == |outs|
    ensures EagerRun(m, ops + [op], outs + [out]) == EagerDo(EagerRun(m, ops, outs), op, out)
    decreases |ops|
  {
    hide EagerDo;
    if ops == [] {
      assert (ops + [op])[1..] == [] && (outs + [out])[1..] == [];
    } else {
      assert (ops + [op])[1..] == ops[1..] + [op] && (outs + [out])[1..] == outs[1..] + [out];
      EagerSnoc(EagerDo(m, ops[0], outs[0]), ops[1..], outs[1..], op, out);
    }
  }

  /** The space that an operation makes. */
  function Made(op: Op): set<nat> {
    match op
    case OpFork(_, child) => {child}
    case OpExec(_, next, _, _) => {next}
    case _ => {}
  }

  lemma EagerElsewhere(m: Machine, op: Op, out: Outcome, k: UPage)
    requires op.space != k.space && k.space !in Made(op)
    ensures EagerDo(m, op, out).mem(k) == m.mem(k)
  {
    if op.OpExec? && Program.Runs(op.program, op.argv) {
      Program.ImageElsewhere(m.mem, op.next, op.program, op.argv, k);
    }
  }

  /** A process whose space no operation of the run names, as the one that acts
      or the one made, reads the same afterwards. */
  lemma {:induction false} OthersUnaffected(m: Machine, ops: seq<Op>, outs: seq<Outcome>, k: UPage)
    requires |ops| == |outs|
    requires forall i :: 0 <= i < |ops| ==> ops[i].space != k.space && k.space !in Made(ops[i])
    ensures EagerRun(m, ops, outs).mem(k) == m.mem(k)
    decreases |ops|
  {
    hide EagerDo;
    if ops != [] {
      EagerElsewhere(m, ops[0], outs[0], k);
      OthersUnaffected(EagerDo(m, ops[0], outs[0]), ops[1..], outs[1..], k);
    }
  }

  /** The references that an operation leaves behind with no table to show for
      them. */
  function Left(out: Outcome): multiset<Pa> {
    if out.Lost? || out.Panicked? then multiset{out.pa} else multiset{}
  }

  function LeftAll(outs: seq<Outcome>): multiset<Pa> {
    if outs == [] then multiset{} else LeftAll(outs[..|outs| - 1]) + Left(outs[|outs| - 1])
  }

  lemma LeftSnoc(outs: seq<Outcome>, out: Outcome)
    ensures LeftAll(outs + [out]) == LeftAll(outs) + Left(out)
  {
    assert (outs + [out])[..|outs|] == outs;
  }

  /** Why an operation may fail: it makes no sense, a size limit or a permission
      forbids it, or memory is too short for all it might need. */
  ghost predicate Excused(s: State, sz: map<nat, nat>, shmId: map<nat, int>, loaded: bool, op: Op) {
    if op.OpInit? then op.space in sz || |s.free| < 4
    else if op.space !in sz then true
    else
      match op
      case OpFork(space, child) => child in sz || |s.free| < 4 + 2 * PagesOf(sz[space])
      case OpStore(space, va, src) =>
        if |src| == 1 then !Storable(s, sz, space, va)
        else !CanWriteAll(s, sz, space, va, |src|) || |s.free| < 3 * Spanned(va, |src|)
      case OpLoad(space, va, len) =>
        if len == 1 then !Loadable(s, sz, space, va)
        else !CanReadAll(s, sz, space, va, len) || |s.free| < 3 * Spanned(va, len)
      case OpGrow(space, n) =>
        !(-0x8000_0000 <= n < 0x8000_0000) ||
        (n > 0 && (sz[space] + n > TRAPFRAME * PGSIZE ||
                   |s.free| < 3 * (PagesOf(sz[space] + n) - PagesOf(sz[space]))))
      case OpLazy(space, n) => sz[space] + n > TRAPFRAME * PGSIZE
      case OpExec(space, next, program, argv) =>
        || next in sz || !Program.Runs(program, argv)
        || |s.free| < 3 + 3 * (Program.Guard(program) + 1 + Program.USERSTACK)
      case OpShmOpen(space, id) => !Acquires(s, shmId, id)
      case OpShmClose(space, id) => !Known(shmId, id)
      case OpLoadDisk(space) => loaded
      case OpDisk(space, idx, alloc) =>
        !loaded || idx >= RD_PAGES || (RdSlot(idx) !in s.own && (!alloc || s.free == []))
      case OpUnloadDisk(space) => !loaded
      case _ => false
  }

  /** A reference is lost, or the kernel panics, exactly in shm_open's own two
      cases. */
  ghost predicate Accounted(s: State, sz: map<nat, nat>, shmId: map<nat, int>, op: Op, out: Outcome) {
    if op.OpShmOpen? && op.space in sz then
      var v := Verdict(s, sz[op.space], shmId, op.space, op.id);
      && (out.Done? <==> v.Opened?) && (out.Failed? <==> v.NoPage?)
      && (out.Lost? <==> v.NoTables?) && (out.Panicked? <==> v.Remapped?)
    else !out.Lost? && !out.Panicked?
  }

  /** What a load delivers is what the eager machine holds, except in pages that
      stem from shm_open. */
  ghost predicate Truthful(s: State, m: Machine, op: Op, out: Outcome) {
    out.Got? ==> op.OpLoad? && |out.bytes| == op.len
                 && forall i :: 0 <= i < op.len ==> Reads(s.tainted, m.mem, op.space, op.va + i, out.bytes[i])
  }

  /** What an operation does from state s and sizes sz to state t and sizes tz:
      it is the eager machine's, it leaves no reference behind but shm_open's,
      what it reads is right, and it fails only with reason. */
  ghost predicate Faithful(s: State, sz: map<nat, nat>, shmId: map<nat, int>, loaded: bool, m: Machine,
                           op: Op, out: Outcome, t: State, tz: map<nat, nat>) {
    && Matches(t, tz, EagerDo(m, op, out))
    && t.extra == s.extra + Left(out)
    && Accounted(s, sz, shmId, op, out) && Truthful(t, m, op, out)
    && (op.OpInit? || op.space in sz || out == Failed(0))
    && (out.Failed? ==> Excused(s, sz, shmId, loaded, op))
  }

  /** Nothing is done for a space that does not exist, and what a load delivers
      is what machine m holds, except in pages that stem from shm_open. */
  ghost predicate Honest(m: Machine, op: Op, out: Outcome) {
    && (op.OpInit? || op.space in m.sz || out == Failed(0))
    && (out.Got? ==> op.OpLoad? && |out.bytes| == op.len
                     && forall i :: 0 <= i < op.len ==> Reads(m.tainted, m.mem, op.space, op.va + i, out.bytes[i]))
  }

  /** So is every operation of a run from m on. */
  ghost predicate AllHonest(m: Machine, ops: seq<Op>, outs: seq<Outcome>)
    requires |ops| == |outs|
    decreases |ops|
  {
    ops == [] || (Honest(m, ops[0], outs[0]) && AllHonest(EagerDo(m, ops[0], outs[0]), ops[1..], outs[1..]))
  }

  lemma {:induction false} HonestSnoc(m: Machine, ops: seq<Op>, outs: seq<Outcome>, op: Op, out: Outcome)
    requires |ops| == |outs| && AllHonest(m, ops, outs) && Honest(EagerRun(m, ops, outs), op, out)
    ensures AllHonest(m, ops + [op], outs + [out])
    decreases |ops|
  {
    hide EagerDo, Honest;
    if ops == [] {
      assert (ops + [op])[1..] == [] && (outs + [out])[1..] == [];
    } else {
      assert (ops + [op])[1..] == ops[1..] + [op] && (outs + [out])[1..] == outs[1..] + [out];
      HonestSnoc(EagerDo(m, ops[0], outs[0]), ops[1..], outs[1..], op, out);
    }
  }

  lemma {:induction false} HonestAt(m: Machine, ops: seq<Op>, outs: seq<Outcome>, j: nat)
    requires |ops| == |outs| && AllHonest(m, ops, outs) && j < |ops|
    ensures Honest(EagerRun(m, ops[..j], outs[..j]), ops[j], outs[j])
    decreases |ops|
  {
    hide EagerDo, Honest;
    if j > 0 {
      HonestAt(EagerDo(m, ops[0], outs[0]), ops[1..], outs[1..], j - 1);
      assert ops[..j][1..] == ops[1..][..j - 1] && outs[..j][1..] == outs[1..][..j - 1];
    }
  }

  // ---- a load sees the last store ----

  /** The bytes that an operation stores. */
  function Landed(op: Op, out: Outcome): seq<nat>
    requires op.OpStore?
  {
    if out.Done? then op.src else if out.Failed? && out.n <= |op.src| then op.src[..out.n] else []
  }

  /** The operation leaves byte va of the space alone. */
  predicate Spares(op: Op, out: Outcome, space: nat, va: nat) {
    space !in Made(op) &&
    (op.space == space ==>
       match op
       case OpStore(_, a, _) => !(a <= va < a + |Landed(op, out)|)
       case OpGrow(_, n) => n > 0 || out.Failed?
       case OpExit(_) => false
       case OpExec(_, _, _, _) => !out.Done?
       case _ => true)
  }

  /** Operation i has stored a byte at va of a space, operation j has loaded one
      from there, and nothing between them has touched it. */
  predicate LoadsStored(ops: seq<Op>, outs: seq<Outcome>, i: nat, j: nat, va: nat) {
    && i < j < |outs| == |ops| && ops[i].OpStore? && ops[j].OpLoad? && ops[i].space == ops[j].space && outs[j].Got?
    && ops[i].va <= va < ops[i].va + |Landed(ops[i], outs[i])| && ops[j].va <= va < ops[j].va + |outs[j].bytes|
    && forall k :: i < k < j ==> Spares(ops[k], outs[k], ops[i].space, va)
  }

  lemma SparesByte(m: Machine, op: Op, out: Outcome, space: nat, va: nat)
    requires Spares(op, out, space, va)
    ensures ByteAt(EagerDo(m, op, out).mem, space, va) == ByteAt(m.mem, space, va)
  {
    if op.space != space {
      EagerElsewhere(m, op, out, UPage(space, va / PGSIZE));
    } else if op.OpStore? {
      StoredByte(m.mem, space, op.va, Landed(op, out), space, va);
    }
  }

  lemma {:induction false} SparedByte(m: Machine, ops: seq<Op>, outs: seq<Outcome>, space: nat, va: nat)
    requires |ops| == |outs| && forall k :: 0 <= k < |ops| ==> Spares(ops[k], outs[k], space, va)
    ensures ByteAt(EagerRun(m, ops, outs).mem, space, va) == ByteAt(m.mem, space, va)
    decreases |ops|
  {
    hide EagerDo, Spares;
    if ops != [] {
      SparesByte(m, ops[0], outs[0], space, va);
      SparedByte(EagerDo(m, ops[0], outs[0]), ops[1..], outs[1..], space, va);
    }
  }

  lemma {:induction false} EagerJoin(m: Machine, ops: seq<Op>, outs: seq<Outcome>, i: nat)
    requires |ops| == |outs| && i < |ops|
    ensures EagerRun(m, ops, outs) ==
            EagerRun(EagerDo(EagerRun(m, ops[..i], outs[..i]), ops[i], outs[i]), ops[i + 1..], outs[i + 1..])
    decreases |ops|
  {
    hide EagerDo;
    if i > 0 {
      EagerJoin(EagerDo(m, ops[0], outs[0]), ops[1..], outs[1..], i - 1);
      assert ops[..i][1..] == ops[1..][..i - 1] && outs[..i][1..] == outs[1..][..i - 1];
      assert ops[1..][i..] == ops[i + 1..] && outs[1..][i..] == outs[i + 1..];
    }
  }

  /** In a run, a load delivers the byte that was last stored there. */
  lemma LoadsLastStore(m: Machine, ops: seq<Op>, outs: seq<Outcome>, i: nat, j: nat, va: nat)
    requires |ops| == |outs| && AllHonest(m, ops, outs) && LoadsStored(ops, outs, i, j, va)
    requires UPage(ops[i].space, va / PGSIZE) !in EagerRun(m, ops[..j], outs[..j]).tainted
    ensures outs[j].bytes[va - ops[j].va] == ops[i].src[va - ops[i].va]
  {
    hide EagerDo, EagerRun, AllHonest, Spares;
    var space, before := ops[i].space, EagerRun(m, ops[..i], outs[..i]);
    HonestAt(m, ops, outs, i);
    HonestAt(m, ops, outs, j);
    var at := EagerRun(m, ops[..j], outs[..j]);
    EagerJoin(m, ops[..j], outs[..j], i);
    assert ops[..j][..i] == ops[..i] && outs[..j][..i] == outs[..i];
    var after := EagerDo(before, ops[i], outs[i]);
    StoreDone(before, ops[i], outs[i], va);
    SparedByte(after, ops[..j][i + 1..], outs[..j][i + 1..], space, va);
    assert Reads(at.tainted, at.mem, space, ops[j].va + (va - ops[j].va), outs[j].bytes[va - ops[j].va]);
  }

  /** Every load of a run delivers the byte that was last stored there. */
  ghost predicate ReadsBack(m: Machine, ops: seq<Op>, outs: seq<Outcome>)
    requires |ops| == |outs|
  {
    forall i: nat, j: nat, va: nat ::
      LoadsStored(ops, outs, i, j, va) &&
      UPage(ops[i].space, va / PGSIZE) !in EagerRun(m, ops[..j], outs[..j]).tainted ==>
        outs[j].bytes[va - ops[j].va] == ops[i].src[va - ops[i].va]
  }

  lemma AllReadBack(m: Machine, ops: seq<Op>, outs: seq<Outcome>)
    requires |ops| == |outs| && AllHonest(m, ops, outs)
    ensures ReadsBack(m, ops, outs)
  {
    hide EagerDo, EagerRun, AllHonest, Spares;
    forall i: nat, j: nat, va: nat |
        LoadsStored(ops, outs, i, j, va) &&
        UPage(ops[i].space, va / PGSIZE) !in EagerRun(m, ops[..j], outs[..j]).tainted
      ensures outs[j].bytes[va - ops[j].va] == ops[i].src[va - ops[i].va]
    {
      LoadsLastStore(m, ops, outs, i, j, va);
    }
  }

  lemma StoreDone(m: Machine, op: Op, out: Outcome, va: nat)
    requires Honest(m, op, out) && op.OpStore? && op.va <= va < op.va + |Landed(op, out)|
    ensures ByteAt(EagerDo(m, op, out).mem, op.space, va) == op.src[va - op.va]
  {
    StoredByte(m.mem, op.space, op.va, Landed(op, out), op.space, va);
  }

  lemma LeftBy(s: State, sz: map<nat, nat>, shmId: map<nat, int>, loaded: bool, m: Machine,
               op: Op, out: Outcome, t: State, tz: map<nat, nat>)
    requires Faithful(s, sz, shmId, loaded, m, op, out, t, tz)
    ensures Left(out) != multiset{} ==> op.OpShmOpen?
    ensures Matches(t, tz, EagerDo(m, op, out)) && t.extra == s.extra + Left(out)
  {
    hide Matches, EagerDo, Truthful, Excused;
  }

  lemma HonestBy(s: State, sz: map<nat, nat>, shmId: map<nat, int>, loaded: bool, m: Machine,
                 op: Op, out: Outcome, t: State, tz: map<nat, nat>)
    requires Faithful(s, sz, shmId, loaded, m, op, out, t, tz) && m.sz == sz
    ensures Honest(m, op, out)
  {
    hide Refines, Reads, Accounted, Excused;
    assert op.OpLoad? ==> EagerDo(m, op, out) == m;
    hide EagerDo;
  }

  lemma LeftNone(extra: multiset<Pa>)
    ensures extra + LeftAll([]) == extra
  {
  }

  lemma MatchesSize(s: State, sz: map<nat, nat>, m: Machine)
    requires Matches(s, sz, m)
    ensures m.sz == sz
  {
  }

  lemma HonestNone(m: Machine, ops: seq<Op>)
    ensures AllHonest(m, ops[..0], [])
  {
  }

  lemma EagerNone(m: Machine, ops: seq<Op>)
    ensures EagerRun(m, ops[..0], []) == m
  {
  }

  // ---- one operation ----

  method DoStore(k: Memory, op: Op, ghost m: Machine) returns (out: Outcome)
    requires k.Valid() && k.ShmTable() && Matches(k.s, k.sz, m)
    requires op.OpStore? && op.space in k.sz
    modifies k
    ensures k.Valid() && k.ShmTable()
    ensures Faithful(old(k.s), old(k.sz), old(k.shmId), old(k.loaded), m, op, out, k.s, k.sz)
  {
    hide Inv, Refines, Bounded, Fits, Owned, Stored, Storable, CanWriteAll;
    if |op.src| == 1 {
      var ok := k.UserStore(op.space, op.va, op.src[0], m.mem);
      assert op.src == [op.src[0]];
      if !ok {
        StoredNothing(k.s, m.mem, op.space, op.va);
      }
      out := if ok then Done else Failed(0);
    } else {
      var ok, n := k.Copyout(op.space, op.va, op.src, m.mem);
      assert op.src[..|op.src|] == op.src;
      out := if ok then Done else Failed(n);
    }
  }

  method DoLoad(k: Memory, op: Op, ghost m: Machine) returns (out: Outcome)
    requires k.Valid() && k.ShmTable() && Matches(k.s, k.sz, m)
    requires op.OpLoad? && op.space in k.sz
    modifies k
    ensures k.Valid() && k.ShmTable()
    ensures Faithful(old(k.s), old(k.sz), old(k.shmId), old(k.loaded), m, op, out, k.s, k.sz)
  {
    hide Inv, Refines, Bounded, Fits, Owned, Loadable, CanReadAll;
    if op.len == 1 {
      var r := k.UserLoad(op.space, op.va, m.mem);
      out := if r.Some? then Got([r.value]) else Failed(0);
    } else {
      var ok, dst := k.Copyin(op.space, op.va, op.len, m.mem);
      out := if ok then Got(dst) else Failed(|dst|);
    }
  }

  function OpenOutcome(r: OpenResult, pa: Pa): Outcome {
    match r
    case NoPage => Failed(0)
    case NoTables => Lost(pa)
    case Remapped => Panicked(pa)
    case Opened(_) => Done
  }

  lemma OpenFaithful(s: State, shmId: map<nat, int>, loaded: bool, m: Machine, op: Op, r: OpenResult, out: Outcome,
                     t: State, tz: map<nat, nat>)
    requires op.OpShmOpen? && op.space in m.sz && Refines(t, m.mem)
    requires t.tainted == m.tainted + if r.Opened? then {UPage(op.space, PagesOf(m.sz[op.space]))} else {}
    requires r == Verdict(s, m.sz[op.space], shmId, op.space, op.id)
    requires out == OpenOutcome(r, if out.Lost? || out.Panicked? then out.pa else 0) && t.extra == s.extra + Left(out)
    requires tz == if r.Opened? then m.sz[op.space := r.va + PGSIZE] else m.sz
    ensures Faithful(s, m.sz, shmId, loaded, m, op, out, t, tz)
  {
    hide Refines, Known, TableFull, Missing, PagesOf;
  }

  method DoShmOpen(k: Memory, op: Op, ghost m: Machine) returns (out: Outcome)
    requires k.Valid() && k.ShmTable() && Matches(k.s, k.sz, m)
    requires op.OpShmOpen? && op.space in k.sz
    modifies k
    ensures k.Valid() && k.ShmTable()
    ensures Faithful(old(k.s), old(k.sz), old(k.shmId), old(k.loaded), m, op, out, k.s, k.sz)
  {
    hide Inv, Refines, Bounded, Fits, Owned, Verdict, Faithful;
    var r, i := k.ShmOpen(op.space, op.id, m.mem);
    out := OpenOutcome(r, if r.NoPage? then 0 else k.s.shm[i]);
    OpenFaithful(old(k.s), old(k.shmId), old(k.loaded), m, op, r, out, k.s, k.sz);
  }

  method DoShmClose(k: Memory, op: Op, ghost m: Machine) returns (out: Outcome)
    requires k.Valid() && k.ShmTable() && Matches(k.s, k.sz, m)
    requires op.OpShmClose? && op.space in k.sz
    modifies k
    ensures k.Valid() && k.ShmTable()
    ensures Faithful(old(k.s), old(k.sz), old(k.shmId), old(k.loaded), m, op, out, k.s, k.sz)
  {
    hide Inv, Refines, Bounded, Fits, Owned, Known;
    var ok, _ := k.ShmClose(op.id, m.mem);
    out := if ok then Done else Failed(0);
  }

  method DoDisk(k: Memory, op: Op, ghost m: Machine) returns (out: Outcome)
    requires k.Valid() && k.ShmTable() && Matches(k.s, k.sz, m)
    requires (op.OpLoadDisk? || op.OpDisk? || op.OpUnloadDisk?) && op.space in k.sz
    modifies k
    ensures k.Valid() && k.ShmTable()
    ensures Faithful(old(k.s), old(k.sz), old(k.shmId), old(k.loaded), m, op, out, k.s, k.sz)
  {
    hide Inv, Refines, Bounded, Fits, Owned;
    var ok := false;
    match op {
      case OpLoadDisk(_) => ok := k.LoadRamdisk();
      case OpDisk(_, idx, alloc) =>
        if k.loaded {
          var r := k.RdWalk(idx, alloc, m.mem);
          ok := r.Some?;
        }
      case OpUnloadDisk(_) => ok := k.UnloadRamdisk(m.mem);
    }
    out := if ok then Done else Failed(0);
  }

  /** sys_exec refuses MAXARG arguments and more; next is a table that does not
      exist yet. */
  method DoExec(k: Memory, op: Op, ghost m: Machine) returns (out: Outcome)
    requires k.Valid() && k.ShmTable() && Matches(k.s, k.sz, m)
    requires op.OpExec? && op.space in k.sz
    modifies k
    ensures k.Valid() && k.ShmTable()
    ensures Faithful(old(k.s), old(k.sz), old(k.shmId), old(k.loaded), m, op, out, k.s, k.sz)
  {
    hide Inv, Refines, Bounded, Fits, Owned, Dropped, Cleaned, PagesOf, Program.Image, Program.Guard, Program.Top;
    if |op.argv| >= Program.MAXARG || op.next in k.sz {
      return Failed(0);
    }
    var ok, _ := Exec.Kexec(k, op.space, op.next, op.program, op.argv, m.mem);
    out := if ok then Done else Failed(0);
  }

  method DoSize(k: Memory, op: Op, ghost m: Machine) returns (out: Outcome)
    requires k.Valid() && k.ShmTable() && Matches(k.s, k.sz, m)
    requires op.OpInit? || ((op.OpFork? || op.OpGrow? || op.OpLazy? || op.OpExit?) && op.space in k.sz)
    modifies k
    ensures k.Valid() && k.ShmTable()
    ensures Faithful(old(k.s), old(k.sz), old(k.shmId), old(k.loaded), m, op, out, k.s, k.sz)
  {
    hide Inv, Refines, Bounded, Fits, Owned, Copied, Dropped, PagesOf;
    var ok := false;
    match op {
      case OpInit(space) =>
        if space !in k.sz {
          ok := k.Userinit(space, m.mem);
        }
      case OpFork(space, child) =>
        if child !in k.sz {
          ok := k.Fork(space, child, m.mem);
        }
      case OpGrow(space, n) =>
        if -0x8000_0000 <= n < 0x8000_0000 {
          ok := k.Growproc(space, n, m.mem);
        }
      case OpLazy(space, n) => ok := k.LazySbrk(space, n);
      case OpExit(space) =>
        k.FreeSpace(space, m.mem);
        ok := true;
    }
    out := if ok then Done else Failed(0);
  }

  /** One operation; one that names no live space, or a child that exists, is
      refused. */
  method RunOne(k: Memory, op: Op, ghost m: Machine) returns (out: Outcome)
    requires k.Valid() && k.ShmTable() && Matches(k.s, k.sz, m)
    modifies k
    ensures k.Valid() && k.ShmTable()
    ensures Faithful(old(k.s), old(k.sz), old(k.shmId), old(k.loaded), m, op, out, k.s, k.sz)
  {
    hide Inv, Refines, Bounded, Fits, Owned;
    if !op.OpInit? && op.space !in k.sz {
      if op.OpStore? {
        StoredNothing(k.s, m.mem, op.space, op.va);
      }
      return Failed(0);
    }
    hide Faithful;
    match op {
      case OpStore(_, _, _) => out := DoStore(k, op, m);
      case OpLoad(_, _, _) => out := DoLoad(k, op, m);
      case OpShmOpen(_, _) => out := DoShmOpen(k, op, m);
      case OpExec(_, _, _, _) => out := DoExec(k, op, m);
      case OpShmClose(_, _) => out := DoShmClose(k, op, m);
      case OpLoadDisk(_) => out := DoDisk(k, op, m);
      case OpDisk(_, _, _) => out := DoDisk(k, op, m);
      case OpUnloadDisk(_) => out := DoDisk(k, op, m);
      case _ => out := DoSize(k, op, m);
    }
  }

  // ---- runs ----

  /** Any sequence of operations, in any order by any processes, up to a panic:
      what the processes read is what the eager machine holds after the same
      sequence, and only shm_open leaves references behind. */
  method Run(k: Memory, ops: seq<Op>, ghost m: Machine) returns (outs: seq<Outcome>)
    requires k.Valid() && k.ShmTable() && Matches(k.s, k.sz, m)
    modifies k
    ensures k.Valid() && k.ShmTable() && |outs| <= |ops|
    ensures |outs| < |ops| ==> outs != [] && outs[|outs| - 1].Panicked?
    ensures Matches(k.s, k.sz, EagerRun(m, ops[..|outs|], outs)) && AllHonest(m, ops[..|outs|], outs)
    ensures k.s.extra == old(k.s).extra + LeftAll(outs)
    ensures forall i :: 0 <= i < |outs| && Left(outs[i]) != multiset{} ==> ops[i].OpShmOpen?
  {
    hide Inv, Matches, EagerDo, EagerRun, LeftAll, Left, Bounded, Fits, Owned, Faithful, AllHonest, Honest;
    HonestNone(m, ops);
    LeftNone(k.s.extra);
    EagerNone(m, ops);
    outs := [];
    ghost var f := m;
    while |outs| < |ops|
      invariant |outs| <= |ops| && k.Valid() && k.ShmTable() && Matches(k.s, k.sz, f)
      invariant f == EagerRun(m, ops[..|outs|], outs) && AllHonest(m, ops[..|outs|], outs)
      invariant k.s.extra == old(k.s).extra + LeftAll(outs)
      invariant forall i :: 0 <= i < |outs| && Left(outs[i]) != multiset{} ==> ops[i].OpShmOpen?
      decreases |ops| - |outs|
    {
      ghost var i, s, sz, shmId, loaded := |outs|, k.s, k.sz, k.shmId, k.loaded;
      var op := ops[|outs|];
      var out := RunOne(k, op, f);
      EagerSnoc(m, ops[..i], outs, op, out);
      MatchesSize(s, sz, f);
      assert ops[..i] + [op] == ops[..i + 1];
      LeftSnoc(outs, out);
      LeftBy(s, sz, shmId, loaded, f, op, out, k.s, k.sz);
      HonestBy(s, sz, shmId, loaded, f, op, out, k.s, k.sz);
      HonestSnoc(m, ops[..i], outs, op, out);
      f := EagerDo(f, op, out);
      outs := outs + [out];
      if out.Panicked? {
        return;
      }
    }
  }

  /** No call of shm_open has succeeded. */
  predicate NoneOpened(ops: seq<Op>, outs: seq<Outcome>)
    requires |ops| == |outs|
  {
    forall i :: 0 <= i < |ops| ==> !(ops[i].OpShmOpen? && outs[i].Done?)
  }

  function Boot(): Machine {
    Machine((x: UPage) => ZeroPage(), map[], {})
  }

  lemma {:induction false} Untainted(m: Machine, ops: seq<Op>, outs: seq<Outcome>)
    requires |ops| == |outs| && m.tainted == {} && NoneOpened(ops, outs)
    ensures EagerRun(m, ops, outs).tainted == {}
    decreases |ops|
  {
    if ops != [] {
      assert !(ops[0].OpShmOpen? && outs[0].Done?);
      Untainted(EagerDo(m, ops[0], outs[0]), ops[1..], outs[1..]);
    }
  }

  /** From boot on, in every run: the processes see what the eager machine holds,
      on every page if no shm_open has succeeded, and the count of every page is
      the number of page tables, kernel structures and shared frames that hold it,
      plus the references that refused calls of shm_open have lost. */
  method BootAndRun(kernelPages: nat, ops: seq<Op>) returns (k: Memory, outs: seq<Outcome>)
    requires kernelPages <= NPAGES
    ensures fresh(k) && k.Valid() && k.ShmTable() && |outs| <= |ops|
    ensures |outs| < |ops| ==> outs != [] && outs[|outs| - 1].Panicked?
    ensures Matches(k.s, k.sz, EagerRun(Boot(), ops[..|outs|], outs))
    ensures NoneOpened(ops[..|outs|], outs) ==>
              Sized(k.s) && forall x :: View(k.s, x) == EagerRun(Boot(), ops[..|outs|], outs).mem(x)
    ensures |k.s.ref| == NPAGES
    ensures forall pa: Pa :: k.s.ref[pa] == Holders(k.s.leaf, k.s.own, k.s.shm, pa) + LeftAll(outs)[pa]
    ensures forall i :: 0 <= i < |outs| && Left(outs[i]) != multiset{} ==> ops[i].OpShmOpen?
    ensures ReadsBack(Boot(), ops[..|outs|], outs)
  {
    hide EagerDo, EagerRun, Uses, Bounded, Fits, Owned, View, AllHonest, ReadsBack;
    k := new Memory(kernelPages);
    outs := Run(k, ops, Boot());
    AllReadBack(Boot(), ops[..|outs|], outs);
    if NoneOpened(ops[..|outs|], outs) {
      Untainted(Boot(), ops[..|outs|], outs);
      assert forall x :: Private(k.s, x);
    }
    assert Counted(k.s.ref, k.s.leaf, k.s.own, k.s.shm, k.s.extra);
  }

  /** A reference lost for good. With five pages free, the first process takes
      four, its shm_open takes the last for the page, and no table can be had to
      map it. When the frame is closed and the process gone, nothing holds the
      page, and it is not free. */
  method ShmOpenLeaks() returns (k: Memory, pa: Pa)
    ensures fresh(k) && k.Valid() && k.sz == map[] && k.s.shm == map[] && |k.s.ref| == NPAGES
    ensures Holders(k.s.leaf, k.s.own, k.s.shm, pa) == 0 && k.s.ref[pa] == 1 && pa !in k.s.free
  {
    hide Inv, Refines, Uses, Bounded, Fits, Owned, Verdict;
    ghost var e := (x: UPage) => ZeroPage();
    k := new Memory(NPAGES - 5);
    var ok := k.Userinit(0, e);
    NoTablesLeft(k.s, k.shmId);
    var r, i := k.ShmOpen(0, 7, e);
    pa := k.s.shm[i];
    ok, i := k.ShmClose(7, e);
    k.FreeSpace(0, e);
    OnlyLost(k.s, pa);
  }

  lemma NoTablesLeft(s: State, shmId: map<nat, int>)
    requires |s.free| == 1 && s.shm == map[] && shmId == map[]
    requires s.own.Keys == KernelImage(NPAGES - 5).Keys
                           + {Frame(0), Root(0), MidOf(0, TRAPFRAME), LastOf(0, TRAPFRAME)}
    ensures Verdict(s, 0, shmId, 0, 7) == NoTables && !Known(shmId, 7)
  {
    assert 0 !in s.shm;
  }

  lemma OnlyLost(s: State, pa: Pa)
    requires Inv(s) && s.leaf == map[] && s.shm == map[] && s.extra == multiset{pa}
    ensures |s.ref| == NPAGES && Holders(s.leaf, s.own, s.shm, pa) == 0 && s.ref[pa] == 1 && pa !in s.free
  {
    CountAt(s, pa);
    forall o | o in s.own ensures s.own[o] != pa {
      OwnPage(s, o);
    }
  }
}
