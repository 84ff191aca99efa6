/** The log (kernel/log.c) together with the processes that use the buffer cache
    under it (kernel/bio.c): reading and holding blocks in or out of
    transactions, changing them, logging them, and the commit, one turn of its
    loops at a time. Blocks are known by what is visible of them and the cache by
    how many blocks are in use. */
module LogMachine {
  import opened Common
  import opened CrashRecovery
  import G = GroupCommit

  /** Where commit is. Writing: write_log has copied tail blocks, and after the
      last write_head follows. Installing: install_trans has copied tail blocks,
      and after the last the header is cleared. */
  datatype Phase = Idle | Writing(tail: nat) | Installing(tail: nat)

  datatype Sys = Sys(
    g: G.State,
    phase: Phase,
    out: multiset<nat>,     // blocks that processes hold, once per bread
    dirty: set<nat>,        // blocks changed and not yet logged
    view: Disk,             // the latest contents of every home block
    saved: seq<Disk>)       // view at each header write, after the one at the start

  datatype Move =
    | Take(b: nat)          // bread, by any process, in a transaction or not
    | Put(b: nat)           // brelse
    | Change(b: nat, x: Block)
    | Log(a: G.Action)      // a step of begin_op, log_write or end_op
    | Turn                  // a step of commit

  datatype Outcome = Next(s: Sys) | NoBuffers | LogPanic(why: G.Reason) | Disabled

  function Init(view: Disk): Sys {
    Sys(G.Init(), Idle, multiset{}, {}, view, [view])
  }

  function Held(s: Sys): set<nat> {
    set b | b in s.out
  }

  /** The blocks that the log has pinned. */
  function Pinned(s: Sys): set<nat> {
    if s.phase.Installing? && s.phase.tail <= |s.g.lh| then Elems(s.g.lh[s.phase.tail..]) else Elems(s.g.lh)
  }

  function Used(s: Sys): set<nat> {
    Pinned(s) + Held(s)
  }

  /** bget has no buffer for a block that is not in use. */
  predicate Crowded(s: Sys) {
    |Used(s)| == NBUF
  }

  function Commit(s: Sys): Outcome {
    match G.Do(s.g, G.Commit)
    case Next(g) => Next(s.(g := g, phase := Idle))
    case _ => Disabled
  }

  function Logged(s: Sys, a: G.Action): Outcome {
    match G.Do(s.g, a)
    case Next(g) => Next(s.(g := g, dirty := if a.LogWrite? then s.dirty - {a.b} else s.dirty))
    case Panic(why) => LogPanic(why)
    case Disabled => Disabled
  }

  /** One move. A process holds a block while it changes or logs it, and lets go
      of a changed block only when it is logged; the last operation to end has
      logged all it changed. */
  function Do(start: nat, s: Sys, m: Move): Outcome {
    match m
    case Take(b) =>
      if b >= |s.view| || InLog(start, b) then Disabled
      else if Crowded(s) && b !in Used(s) then NoBuffers
      else Next(s.(out := s.out + multiset{b}))
    case Put(b) =>
      if b !in s.out || (b in s.dirty && s.out[b] == 1) then Disabled
      else Next(s.(out := s.out - multiset{b}))
    case Change(b, x) =>
      if b !in s.out || b >= |s.view| || s.g.outstanding < 1 then Disabled
      else Next(s.(view := s.view[b := x], dirty := s.dirty + {b}))
    case Log(a) =>
      if a.Commit? || (a.LogWrite? && a.b !in s.out) || (a.EndOp? && s.g.outstanding == 1 && s.dirty != {})
      then Disabled
      else Logged(s, a)
    case Turn =>
      if !s.g.committing || s.g.cleared then Disabled
      else if s.phase.Idle? then if s.g.lh == [] then Commit(s) else Next(s.(phase := Writing(0)))
      else if Crowded(s) then NoBuffers
      else if s.phase.tail < |s.g.lh| then Next(s.(phase := s.phase.(tail := s.phase.tail + 1)))
      else if s.phase.Writing? then Next(s.(phase := Installing(0), saved := s.saved + [s.view]))
      else Commit(s)
  }

  /** Each operation adds at most k blocks to the log, and all processes together
      hold at most h blocks. */
  predicate Allowed(k: nat, h: nat, s: Sys, m: Move) {
    && (m.Log? ==> G.Allowed(k, s.g, m.a))
    && (m.Take? ==> |Held(s) + {m.b}| <= h)
  }

  /** Runs a schedule, up to the first panic. */
  function Exec(start: nat, k: nat, h: nat, s: Sys, moves: seq<Move>): Outcome
    decreases |moves|
  {
    if moves == [] then Next(s)
    else if !Allowed(k, h, s, moves[0]) then Disabled
    else match Do(start, s, moves[0])
      case Next(t) => Exec(start, k, h, t, moves[1..])
      case o => o
  }

  // ---- the invariant ----

  /** The blocks that operations in flight may still add. */
  function Rest(k: nat, ops: seq<G.Op>): int {
    if ops == [] then 0 else k - ops[0].added + Rest(k, ops[1..])
  }

  /** No transaction outgrows MAXOPBLOCKS + 2 * k blocks: begin_op lets a second
      operation in below MAXOPBLOCKS, and a third only into an empty log. */
  ghost predicate Small(k: nat, g: G.State) {
    0 < k <= MAXOPBLOCKS ==> |g.lh| + Rest(k, g.running) <= MAXOPBLOCKS + 2 * k
  }

  ghost predicate Orderly(s: Sys) {
    && (!s.phase.Idle? ==> s.g.committing && !s.g.cleared && s.phase.tail <= |s.g.lh|)
    && (s.g.committing ==> s.dirty == {})
    && s.dirty <= Held(s) && s.saved != []
  }

  ghost predicate Home(start: nat, s: Sys) {
    && (forall b :: b in s.out ==> b < |s.view| && !InLog(start, b))
    && (forall b :: b in s.g.lh ==> b < |s.view| && !InLog(start, b))
  }

  ghost predicate Inv(start: nat, k: nat, h: nat, s: Sys) {
    G.Inv(k, s.g) && Small(k, s.g) && Orderly(s) && Home(start, s) && |Held(s)| <= h
  }

  lemma InitInv(start: nat, k: nat, h: nat, view: Disk)
    ensures Inv(start, k, h, Init(view))
  {
  }

  lemma {:induction false} RestAppend(k: nat, ops: seq<G.Op>, o: G.Op)
    ensures Rest(k, ops + [o]) == Rest(k, ops) + k - o.added
  {
    if ops != [] {
      assert (ops + [o])[1..] == ops[1..] + [o];
      RestAppend(k, ops[1..], o);
    }
  }

  lemma {:induction false} RestUpdate(k: nat, ops: seq<G.Op>, i: nat, o: G.Op)
    requires i < |ops|
    ensures Rest(k, ops[i := o]) == Rest(k, ops) + ops[i].added - o.added
  {
    if i == 0 {
      assert ops[0 := o][1..] == ops[1..];
    } else {
      assert ops[i := o][1..] == ops[1..][i - 1 := o];
      RestUpdate(k, ops[1..], i - 1, o);
    }
  }

  lemma {:induction false} RestRemove(k: nat, ops: seq<G.Op>, i: nat)
    requires i < |ops|
    ensures Rest(k, G.Remove(ops, i)) == Rest(k, ops) - k + ops[i].added
  {
    if i == 0 {
      assert G.Remove(ops, 0) == ops[1..];
    } else {
      assert G.Remove(ops, i)[1..] == G.Remove(ops[1..], i - 1);
      RestRemove(k, ops[1..], i - 1);
    }
  }

  lemma {:induction false} RestBetween(k: nat, ops: seq<G.Op>)
    requires forall i :: 0 <= i < |ops| ==> ops[i].added <= k
    ensures 0 <= Rest(k, ops) <= k * |ops|
  {
    if ops != [] {
      RestBetween(k, ops[1..]);
    }
  }

  lemma BeginSmall(k: nat, g: G.State, t: G.State, id: nat)
    requires t.lh == g.lh && t.running == g.running + [G.Op(id, {}, 0)]
    requires !G.Full(g) && g.outstanding == |g.running| && (g.running == [] ==> g.lh == [])
    requires forall i :: 0 <= i < |g.running| ==> g.running[i].added <= k
    ensures Small(k, t)
  {
    RestAppend(k, g.running, G.Op(id, {}, 0));
    RestBetween(k, g.running);
    if |g.running| >= 2 {
      assert |g.lh| == 0 && |g.running| == 2;
    } else if |g.running| == 1 {
      assert k * |g.running| == k;
    }
  }

  lemma SmallSame(k: nat, g: G.State, t: G.State)
    requires Small(k, g) && t.running == g.running && |t.lh| <= |g.lh|
    ensures Small(k, t)
  {
  }

  lemma WriteSmall(k: nat, g: G.State, t: G.State, i: nat)
    requires Small(k, g) && i < |g.running| == |t.running| && t.running == g.running[i := t.running[i]]
    requires |t.lh| - |g.lh| == t.running[i].added - g.running[i].added
    ensures Small(k, t)
  {
    RestUpdate(k, g.running, i, t.running[i]);
  }

  lemma EndSmall(k: nat, g: G.State, t: G.State, i: nat)
    requires Small(k, g) && i < |g.running| && t.running == G.Remove(g.running, i) && t.lh == g.lh
    requires g.running[i].added <= k
    ensures Small(k, t)
  {
    RestRemove(k, g.running, i);
  }

  lemma StepSmall(k: nat, g: G.State, a: G.Action)
    requires G.Inv(k, g) && Small(k, g) && G.Allowed(k, g, a) && G.Do(g, a).Next?
    ensures Small(k, G.Do(g, a).s)
  {
    assert g.outstanding == |g.running| && forall i :: 0 <= i < |g.running| ==> g.running[i].added <= k;
    assert g.running == [] && !g.committing ==> g.lh == [];
    var t := G.Do(g, a).s;
    hide G.Inv, Small, G.Full;
    match a
    case TryBegin(id) =>
      if !g.committing && !G.Full(g) {
        BeginSmall(k, g, t, id);
      } else {
        SmallSame(k, g, t);
      }
    case LogWrite(i, b) => WriteSmall(k, g, t, i);
    case EndOp(i) => EndSmall(k, g, t, i);
    case _ => SmallSame(k, g, t);
  }

  lemma StepInv(start: nat, k: nat, h: nat, s: Sys, m: Move)
    requires Inv(start, k, h, s) && Allowed(k, h, s, m) && Do(start, s, m).Next?
    ensures Inv(start, k, h, Do(start, s, m).s)
  {
    assert s.g.outstanding == |s.g.running| && (s.g.committing ==> s.g.running == []);
    hide G.Inv, Small;
    match m
    case Log(a) => LogStep(start, k, h, s, a);
    case Turn => TurnStep(start, k, h, s);
    case _ => HoldStep(start, h, s, m);
  }

  lemma HoldStep(start: nat, h: nat, s: Sys, m: Move)
    requires !m.Log? && !m.Turn? && Do(start, s, m).Next?
    requires Orderly(s) && Home(start, s) && |Held(s)| <= h && (m.Take? ==> |Held(s) + {m.b}| <= h)
    requires s.g.outstanding >= 1 ==> !s.g.committing
    ensures var t := Do(start, s, m).s; t.g == s.g && Orderly(t) && Home(start, t) && |Held(t)| <= h
  {
    hide Crowded, Held;
    match m
    case Take(b) => HeldTake(s, b);
    case Put(b) => PutStep(s, b);
    case Change(b, x) => HeldHas(s, b);
  }

  lemma HeldTake(s: Sys, b: nat)
    ensures Held(s.(out := s.out + multiset{b})) == Held(s) + {b}
  {
  }

  lemma HeldHas(s: Sys, b: nat)
    requires b in s.out
    ensures b in Held(s) && forall v: Disk, d: set<nat> :: Held(s.(view := v, dirty := d)) == Held(s)
  {
  }

  lemma PutStep(s: Sys, b: nat)
    requires b in s.out && !(b in s.dirty && s.out[b] == 1) && s.dirty <= Held(s)
    ensures var t := s.(out := s.out - multiset{b}); s.dirty <= Held(t) && |Held(t)| <= |Held(s)|
  {
    SubsetSize(Held(s.(out := s.out - multiset{b})), Held(s));
  }

  lemma LogStep(start: nat, k: nat, h: nat, s: Sys, a: G.Action)
    requires Inv(start, k, h, s) && G.Allowed(k, s.g, a) && Do(start, s, Log(a)).Next?
    ensures Inv(start, k, h, Do(start, s, Log(a)).s)
  {
    G.StepInv(k, s.g, a);
    StepSmall(k, s.g, a);
    assert s.g.outstanding == |s.g.running| && (s.g.committing ==> s.g.running == []);
    hide G.Inv, Small;
  }

  lemma TurnStep(start: nat, k: nat, h: nat, s: Sys)
    requires Inv(start, k, h, s) && Do(start, s, Turn).Next?
    ensures Inv(start, k, h, Do(start, s, Turn).s)
  {
    hide G.Inv, Small, Crowded;
    if G.Do(s.g, G.Commit).Next? {
      assert G.Allowed(k, s.g, G.Commit);
      G.StepInv(k, s.g, G.Commit);
      StepSmall(k, s.g, G.Commit);
      var g := G.Do(s.g, G.Commit).s;
      assert g.lh == [] && g.committing;
    }
    hide G.Do;
  }

  // ---- when no run panics ----

  /** The blocks in use are those of the transaction and those held. */
  lemma UseBound(s: Sys)
    requires Orderly(s)
    ensures |Used(s)| <= |s.g.lh| + |Held(s)|
  {
    ElemsAtMost(s.g.lh);
    SubsetSize(Pinned(s), Elems(s.g.lh));
    assert |Pinned(s) + Held(s)| <= |Pinned(s)| + |Held(s)|;
  }

  lemma {:induction false} ElemsAtMost(q: seq<nat>)
    ensures |Elems(q)| <= |q|
  {
    if q == [] {
      assert Elems(q) == {};
    } else {
      ElemsAtMost(q[1..]);
      assert Elems(q) == {q[0]} + Elems(q[1..]);
    }
  }

  lemma StepSafe(start: nat, k: nat, h: nat, s: Sys, m: Move)
    requires Inv(start, k, h, s) && Allowed(k, h, s, m) && 0 < k && MAXOPBLOCKS + 2 * k + h < NBUF
    ensures Do(start, s, m).Next? || Do(start, s, m).Disabled?
  {
    UseBound(s);
    RestBetween(k, s.g.running);
    if m.Log? {
      G.StepSafe(k, s.g, m.a);
    }
  }

  lemma {:induction false} ExecSafe(start: nat, k: nat, h: nat, s: Sys, moves: seq<Move>)
    requires Inv(start, k, h, s) && 0 < k && MAXOPBLOCKS + 2 * k + h < NBUF
    ensures Exec(start, k, h, s, moves).Next? || Exec(start, k, h, s, moves).Disabled?
    decreases |moves|
  {
    if moves != [] && Allowed(k, h, s, moves[0]) {
      StepSafe(start, k, h, s, moves[0]);
      if Do(start, s, moves[0]).Next? {
        StepInv(start, k, h, s, moves[0]);
        ExecSafe(start, k, h, Do(start, s, moves[0]).s, moves[1..]);
      }
    }
  }

  // ---- and when some run does ----

  lemma ExecCons(start: nat, k: nat, h: nat, s: Sys, m: Move, rest: seq<Move>)
    requires Allowed(k, h, s, m) && Do(start, s, m).Next?
    ensures Exec(start, k, h, s, [m] + rest) == Exec(start, k, h, Do(start, s, m).s, rest)
  {
    assert ([m] + rest)[1..] == rest;
  }

  /** Operation i takes, logs and releases m blocks, from b on. */
  function Fill(i: nat, b: nat, m: nat): seq<Move>
    decreases m
  {
    if m == 0 then [] else [Take(b)] + ([Log(G.LogWrite(i, b))] + ([Put(b)] + Fill(i, b + 1, m - 1)))
  }

  function Begin(id: nat): seq<Move> {
    [Log(G.Enter(id))] + [Log(G.TryBegin(id))]
  }

  /** Operations that log a block each, while another is in flight. */
  function Singles(id: nat, b: nat, m: nat): seq<Move>
    decreases m
  {
    if m == 0 then [] else Begin(id) + (Fill(1, b, 1) + ([Log(G.EndOp(1))] + Singles(id + 1, b + 1, m - 1)))
  }

  function Takes(b: nat, m: nat): seq<Move>
    decreases m
  {
    if m == 0 then [] else [Take(b)] + Takes(b + 1, m - 1)
  }

  /** One operation stays in flight while MAXOPBLOCKS others log a block each and
      one more logs k; then it logs k of its own. While they commit, processes
      read r other blocks. */
  function Jam(k: nat, base: nat, r: nat): seq<Move> {
    var b := base + MAXOPBLOCKS;
    Begin(0) + (Singles(1, base, MAXOPBLOCKS) + (Begin(MAXOPBLOCKS + 1) + (Fill(1, b, k) + (Fill(0, b + k, k) +
      ([Log(G.EndOp(0))] + ([Log(G.EndOp(0))] + (Takes(b + 2 * k, r) + [Turn, Turn])))))))
  }

  /** Nobody holds a block or waits, and the log lists the n blocks from base. */
  ghost predicate Calm(s: Sys, base: nat, n: nat, id: nat) {
    && s.phase.Idle? && s.out == multiset{} && s.dirty == {} && !s.g.committing && !s.g.cleared
    && s.g.trying == {} && s.g.sleeping == {} && s.g.outstanding == |s.g.running|
    && |s.g.lh| == n && (forall j :: 0 <= j < n ==> s.g.lh[j] == base + j)
    && (forall x :: x in s.g.place ==> x < id)
  }

  lemma BeginRuns(start: nat, k: nat, h: nat, s: Sys, base: nat, n: nat, id: nat, rest: seq<Move>) returns (t: Sys)
    requires Calm(s, base, n, id) && n + (|s.g.running| + 1) * MAXOPBLOCKS <= LOGBLOCKS
    ensures Exec(start, k, h, s, Begin(id) + rest) == Exec(start, k, h, t, rest)
    ensures Calm(t, base, n, id + 1) && t.view == s.view && t.g.running == s.g.running + [G.Op(id, {}, 0)]
  {
    var s1 := Do(start, s, Log(G.Enter(id))).s;
    t := Do(start, s1, Log(G.TryBegin(id))).s;
    assert Begin(id) + rest == [Log(G.Enter(id))] + ([Log(G.TryBegin(id))] + rest);
    ExecCons(start, k, h, s, Log(G.Enter(id)), [Log(G.TryBegin(id))] + rest);
    ExecCons(start, k, h, s1, Log(G.TryBegin(id)), rest);
  }

  /** What logging a new block b does to the protocol. */
  function Grown(g: G.State, i: nat, b: nat): G.State
    requires i < |g.running|
  {
    var op := g.running[i];
    g.(running := g.running[i := op.(writes := op.writes + {b}, added := op.added + 1)], lh := g.lh + [b])
  }

  lemma TakeCalm(start: nat, h: nat, s: Sys, base: nat, n: nat, id: nat)
    requires Calm(s, base, n, id) && n < LOGBLOCKS && start + LOGBLOCKS < base && base + n < |s.view| && h > 0
    ensures Do(start, s, Take(base + n)) == Next(s.(out := multiset{base + n})) && |Held(s) + {base + n}| <= h
  {
    ElemsAtMost(s.g.lh);
    assert Held(s) == {} && Used(s) == Elems(s.g.lh);
    assert s.out + multiset{base + n} == multiset{base + n};
    assert Held(s) + {base + n} == {base + n};
  }

  lemma WriteCalm(start: nat, k: nat, s: Sys, base: nat, n: nat, id: nat, i: nat)
    requires Calm(s, base, n, id) && n < LOGBLOCKS && i < |s.g.running| && s.g.running[i].added < k
    ensures var b := base + n; var t := s.(out := multiset{b});
      G.Allowed(k, s.g, G.LogWrite(i, b)) && Do(start, t, Log(G.LogWrite(i, b))) == Next(t.(g := Grown(s.g, i, b)))
  {
    assert base + n !in s.g.lh;
  }

  lemma PutCalm(start: nat, s: Sys, base: nat, n: nat, id: nat, i: nat)
    requires Calm(s, base, n, id) && i < |s.g.running|
    ensures var b := base + n; var t := s.(out := multiset{b}, g := Grown(s.g, i, b));
      Do(start, t, Put(b)) == Next(s.(g := Grown(s.g, i, b))) && Calm(s.(g := Grown(s.g, i, b)), base, n + 1, id)
  {
    assert multiset{base + n} - multiset{base + n} == multiset{};
  }

  lemma FillOne(start: nat, k: nat, h: nat, s: Sys, base: nat, n: nat, id: nat, i: nat, rest: seq<Move>)
    returns (t: Sys)
    requires Calm(s, base, n, id) && i < |s.g.running| && s.g.running[i].added < k && n < LOGBLOCKS && h > 0
    requires start + LOGBLOCKS < base && base + n < |s.view|
    ensures Exec(start, k, h, s, [Take(base + n)] + ([Log(G.LogWrite(i, base + n))] + ([Put(base + n)] + rest))) ==
            Exec(start, k, h, t, rest)
    ensures t == s.(g := Grown(s.g, i, base + n)) && Calm(t, base, n + 1, id)
  {
    hide Exec, Do, Calm;
    var b := base + n;
    TakeCalm(start, h, s, base, n, id);
    WriteCalm(start, k, s, base, n, id, i);
    PutCalm(start, s, base, n, id, i);
    hide Held, Grown;
    var s1 := s.(out := multiset{b});
    var s2 := s1.(g := Grown(s.g, i, b));
    t := s.(g := Grown(s.g, i, b));
    ExecCons(start, k, h, s, Take(b), [Log(G.LogWrite(i, b))] + ([Put(b)] + rest));
    ExecCons(start, k, h, s1, Log(G.LogWrite(i, b)), [Put(b)] + rest);
    ExecCons(start, k, h, s2, Put(b), rest);
  }

  lemma {:induction false} FillRuns(start: nat, k: nat, h: nat, s: Sys, base: nat, n: nat, id: nat, i: nat, m: nat,
                                    rest: seq<Move>) returns (t: Sys)
    requires Calm(s, base, n, id) && i < |s.g.running| && s.g.running[i].added + m <= k && n + m <= LOGBLOCKS && h > 0
    requires start + LOGBLOCKS < base && base + n + m <= |s.view|
    ensures Exec(start, k, h, s, Fill(i, base + n, m) + rest) == Exec(start, k, h, t, rest)
    ensures Calm(t, base, n + m, id) && t.view == s.view
    ensures |t.g.running| == |s.g.running| && t.g.running[i].added == s.g.running[i].added + m
    ensures t.g.running[i].id == s.g.running[i].id
    ensures forall j :: 0 <= j < |s.g.running| && j != i ==> t.g.running[j] == s.g.running[j]
    decreases m
  {
    hide Exec, Do, Calm;
    if m == 0 {
      t := s;
      assert Fill(i, base + n, 0) + rest == rest;
    } else {
      var b := base + n;
      var more := Fill(i, b + 1, m - 1) + rest;
      assert Fill(i, b, m) + rest == [Take(b)] + ([Log(G.LogWrite(i, b))] + ([Put(b)] + more));
      var s1 := FillOne(start, k, h, s, base, n, id, i, more);
      t := FillRuns(start, k, h, s1, base, n + 1, id, i, m - 1, rest);
    }
  }

  lemma EndRuns(start: nat, k: nat, h: nat, s: Sys, base: nat, n: nat, id: nat, i: nat, rest: seq<Move>)
    returns (t: Sys)
    requires Calm(s, base, n, id) && i < |s.g.running| && |s.g.running| > 1
    ensures Exec(start, k, h, s, [Log(G.EndOp(i))] + rest) == Exec(start, k, h, t, rest)
    ensures Calm(t, base, n, id) && t.view == s.view && t.g.running == G.Remove(s.g.running, i)
    requires forall j :: 0 <= j < |s.g.running| ==> s.g.running[j].id < id
  {
    t := Do(start, s, Log(G.EndOp(i))).s;
    ExecCons(start, k, h, s, Log(G.EndOp(i)), rest);
  }

  lemma {:induction false} SinglesRun(start: nat, k: nat, h: nat, s: Sys, base: nat, n: nat, id: nat, m: nat,
                                      rest: seq<Move>) returns (t: Sys)
    requires Calm(s, base, n, id) && |s.g.running| == 1 && s.g.running[0].id < id
    requires n + m <= MAXOPBLOCKS && k > 0 && h > 0 && start + LOGBLOCKS < base && base + n + m <= |s.view|
    ensures Exec(start, k, h, s, Singles(id, base + n, m) + rest) == Exec(start, k, h, t, rest)
    ensures Calm(t, base, n + m, id + m) && t.view == s.view && t.g.running == s.g.running
    decreases m
  {
    hide Exec, Do, Calm, Begin, Fill;
    var b := base + n;
    if m == 0 {
      t := s;
      assert Singles(id, b, 0) + rest == rest;
    } else {
      var more := Singles(id + 1, b + 1, m - 1) + rest;
      var end := [Log(G.EndOp(1))] + more;
      assert Singles(id, b, m) + rest == Begin(id) + (Fill(1, b, 1) + end);
      var s1 := BeginRuns(start, k, h, s, base, n, id, Fill(1, b, 1) + end);
      var s2 := FillRuns(start, k, h, s1, base, n, id + 1, 1, 1, end);
      var s3 := EndRuns(start, k, h, s2, base, n + 1, id + 1, 1, more);
      assert s3.g.running == s.g.running;
      t := SinglesRun(start, k, h, s3, base, n + 1, id + 1, m - 1, rest);
    }
  }

  /** The last operation has ended, and m blocks from b on are held. */
  ghost predicate Ending(s: Sys, base: nat, n: nat, b: nat, m: nat) {
    && s.phase.Idle? && s.g.committing && !s.g.cleared
    && |s.g.lh| == n && (forall j :: 0 <= j < n ==> s.g.lh[j] == base + j)
    && (forall x :: x in Held(s) <==> b <= x < b + m)
  }

  lemma LastEnd(start: nat, k: nat, h: nat, s: Sys, base: nat, n: nat, id: nat, b: nat, rest: seq<Move>)
    returns (t: Sys)
    requires Calm(s, base, n, id) && |s.g.running| == 1
    ensures Exec(start, k, h, s, [Log(G.EndOp(0))] + rest) == Exec(start, k, h, t, rest)
    ensures Ending(t, base, n, b, 0) && t.view == s.view
  {
    t := Do(start, s, Log(G.EndOp(0))).s;
    ExecCons(start, k, h, s, Log(G.EndOp(0)), rest);
  }

  lemma {:induction false} SpanSize(s: set<nat>, b: nat, m: nat)
    requires forall x :: x in s <==> b <= x < b + m
    ensures |s| == m
    decreases m
  {
    if m == 0 {
      assert s == {};
    } else {
      SpanSize(s - {b + m - 1}, b, m - 1);
    }
  }

  lemma EndingUse(s: Sys, base: nat, n: nat, b: nat, m: nat)
    requires Ending(s, base, n, b, m) && base + n <= b
    ensures |Held(s)| == m && |Used(s)| == n + m
  {
    SpanSize(Held(s), b, m);
    forall x ensures x in Elems(s.g.lh) <==> base <= x < base + n {
      if base <= x < base + n {
        assert s.g.lh[x - base] == x;
      }
    }
    SpanSize(Elems(s.g.lh), base, n);
    assert Elems(s.g.lh) !! Held(s);
  }

  lemma TakeEnding(start: nat, h: nat, s: Sys, base: nat, n: nat, b: nat, m: nat)
    requires Ending(s, base, n, b, m) && base + n <= b && start + LOGBLOCKS < base && b + m < |s.view|
    requires m < h && n + m < NBUF
    ensures var t := s.(out := s.out + multiset{b + m});
      Do(start, s, Take(b + m)) == Next(t) && Ending(t, base, n, b, m + 1) && |Held(s) + {b + m}| <= h
  {
    hide Used, Held, Do;
    EndingUse(s, base, n, b, m);
    HeldTake(s, b + m);
    TakeGoes(start, s, b + m);
  }

  lemma TakeGoes(start: nat, s: Sys, b: nat)
    requires b < |s.view| && !InLog(start, b) && !Crowded(s)
    ensures Do(start, s, Take(b)) == Next(s.(out := s.out + multiset{b}))
  {
  }

  lemma {:induction false} TakesRun(start: nat, k: nat, h: nat, s: Sys, base: nat, n: nat, b: nat, m: nat, r: nat,
                                    rest: seq<Move>) returns (t: Sys)
    requires Ending(s, base, n, b, m) && base + n <= b && start + LOGBLOCKS < base && b + m + r <= |s.view|
    requires m + r <= h && n + m + r <= NBUF
    ensures Exec(start, k, h, s, Takes(b + m, r) + rest) == Exec(start, k, h, t, rest)
    ensures Ending(t, base, n, b, m + r) && t.view == s.view
    decreases r
  {
    hide Exec, Do, Ending, Held;
    if r == 0 {
      t := s;
      assert Takes(b + m, 0) + rest == rest;
    } else {
      var s1 := s.(out := s.out + multiset{b + m});
      TakeEnding(start, h, s, base, n, b, m);
      assert Takes(b + m, r) + rest == [Take(b + m)] + (Takes(b + m + 1, r - 1) + rest);
      ExecCons(start, k, h, s, Take(b + m), Takes(b + m + 1, r - 1) + rest);
      t := TakesRun(start, k, h, s1, base, n, b, m + 1, r - 1, rest);
    }
  }

  lemma TurnsJam(start: nat, k: nat, h: nat, s: Sys, base: nat, n: nat, b: nat, m: nat)
    requires Ending(s, base, n, b, m) && base + n <= b && n > 0 && n + m == NBUF
    ensures Exec(start, k, h, s, [Turn, Turn]) == NoBuffers
  {
    EndingUse(s, base, n, b, m);
    var s1 := s.(phase := Writing(0));
    assert Do(start, s, Turn) == Next(s1);
    assert Used(s1) == Used(s);
    assert [Turn, Turn] == [Turn] + [Turn];
    ExecCons(start, k, h, s, Turn, [Turn]);
    assert Exec(start, k, h, s1, [Turn]) == NoBuffers;
  }

  /** The schedule stops in commit: every buffer is pinned or held. */
  lemma JamPanics(start: nat, k: nat, h: nat, kk: nat, view: Disk)
    requires 0 < kk <= k && kk <= MAXOPBLOCKS && h > 0 && NBUF <= MAXOPBLOCKS + 2 * kk + h
    requires start + LOGBLOCKS + 1 + NBUF <= |view|
    ensures var base := start + LOGBLOCKS + 1;
      Exec(start, k, h, Init(view), Jam(kk, base, NBUF - MAXOPBLOCKS - 2 * kk)) == NoBuffers
  {
    hide Exec, Calm, Ending, Singles, Fill, Takes;
    var base, r := start + LOGBLOCKS + 1, NBUF - MAXOPBLOCKS - 2 * kk;
    var b := base + MAXOPBLOCKS;
    var m8 := Takes(b + 2 * kk, r) + [Turn, Turn];
    var m7 := [Log(G.EndOp(0))] + m8;
    var m6 := [Log(G.EndOp(0))] + m7;
    var m5 := Fill(0, b + kk, kk) + m6;
    var m4 := Fill(1, b, kk) + m5;
    var m3 := Begin(MAXOPBLOCKS + 1) + m4;
    var m2 := Singles(1, base, MAXOPBLOCKS) + m3;
    InitCalm(view, base);
    var s1 := BeginRuns(start, k, h, Init(view), base, 0, 0, m2);
    var s2 := SinglesRun(start, k, h, s1, base, 0, 1, MAXOPBLOCKS, m3);
    var s3 := BeginRuns(start, k, h, s2, base, MAXOPBLOCKS, MAXOPBLOCKS + 1, m4);
    var s4 := FillRuns(start, k, h, s3, base, MAXOPBLOCKS, MAXOPBLOCKS + 2, 1, kk, m5);
    var s5 := FillRuns(start, k, h, s4, base, MAXOPBLOCKS + kk, MAXOPBLOCKS + 2, 0, kk, m6);
    var s6 := EndRuns(start, k, h, s5, base, MAXOPBLOCKS + 2 * kk, MAXOPBLOCKS + 2, 0, m7);
    var s7 := LastEnd(start, k, h, s6, base, MAXOPBLOCKS + 2 * kk, MAXOPBLOCKS + 2, b + 2 * kk, m8);
    var s8 := TakesRun(start, k, h, s7, base, MAXOPBLOCKS + 2 * kk, b + 2 * kk, 0, r, [Turn, Turn]);
    TurnsJam(start, k, h, s8, base, MAXOPBLOCKS + 2 * kk, b + 2 * kk, r);
  }

  lemma InitCalm(view: Disk, base: nat)
    ensures Calm(Init(view), base, 0, 0)
  {
  }

  ghost predicate PanicFree(start: nat, k: nat, h: nat, view: Disk) {
    forall moves :: !Exec(start, k, h, Init(view), moves).NoBuffers? && !Exec(start, k, h, Init(view), moves).LogPanic?
  }

  /** Operations that add up to k blocks each, and processes that hold up to h
      blocks at a time, in every schedule: neither the log nor bget ever panics,
      exactly when the largest transaction and the blocks held leave a buffer. */
  lemma PanicFreeIff(start: nat, k: nat, h: nat, view: Disk)
    requires k > 0 && h > 0 && start + LOGBLOCKS + 1 + NBUF <= |view|
    ensures PanicFree(start, k, h, view) <==> MAXOPBLOCKS + 2 * k + h < NBUF
  {
    if MAXOPBLOCKS + 2 * k + h < NBUF {
      InitInv(start, k, h, view);
      forall moves ensures !Exec(start, k, h, Init(view), moves).NoBuffers? &&
                           !Exec(start, k, h, Init(view), moves).LogPanic? {
        ExecSafe(start, k, h, Init(view), moves);
      }
    } else {
      JamPanics(start, k, h, if k < MAXOPBLOCKS then k else MAXOPBLOCKS, view);
    }
  }
}
