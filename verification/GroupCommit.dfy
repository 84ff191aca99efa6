/** The group-commit protocol of the log (kernel/log.c): any number of file
    system operations bracketed by begin_op and end_op, interleaved at the
    granularity of the sections that hold log.lock. */
module GroupCommit {
  import opened Common

  /** One bracketed operation: the blocks it has passed to log_write and how
      many of those were new to the in-memory log header. */
  datatype Op = Op(id: nat, writes: set<nat>, added: nat)

  /** One executed commit: the operations it makes durable and its block list. */
  datatype Txn = Txn(ops: seq<Op>, blocks: seq<nat>)

  /** Where an operation that has begun is now. */
  datatype Place = InFlight | Ended | InTxn(t: nat)

  datatype State = State(
    trying: set<nat>,         // inside begin_op's loop, about to test
    sleeping: set<nat>,       // asleep on &log
    running: seq<Op>,         // between begin_op and end_op
    ended: seq<Op>,           // past end_op, not yet committed
    outstanding: int,
    committing: bool,
    cleared: bool,            // commit() has set log.lh.n = 0
    lh: seq<nat>,             // log.lh.block[0 .. log.lh.n]
    history: seq<Txn>,
    place: map<nat, Place>)   // every operation that has passed begin_op

  datatype Action =
    | Enter(id: nat)              // a new system call reaches begin_op
    | TryBegin(id: nat)           // one pass of begin_op's loop
    | Spurious(id: nat)           // kkill wakes a sleeper
    | LogWrite(i: nat, b: nat)
    | EndOp(i: nat)
    | Commit                      // commit(), run without log.lock
    | CommitDone                  // committing = 0; wakeup(&log)

  datatype Reason = TooBig | OutsideTrans | AlreadyCommitting

  datatype Outcome = Next(s: State) | Panic(why: Reason) | Disabled

  function Init(): State {
    State({}, {}, [], [], 0, false, false, [], [], map[])
  }

  predicate Full(s: State) {
    |s.lh| + (s.outstanding + 1) * MAXOPBLOCKS > LOGBLOCKS
  }

  function Remove<T>(q: seq<T>, i: nat): seq<T>
    requires i < |q|
  {
    q[..i] + q[i + 1..]
  }

  /** One atomic step, exactly as the code takes it. */
  function Do(s: State, a: Action): Outcome {
    match a
    case Enter(id) =>
      if id in s.trying + s.sleeping || id in s.place then Disabled
      else Next(s.(trying := s.trying + {id}))
    case TryBegin(id) =>
      if id !in s.trying then Disabled
      else if s.committing || Full(s) then
        Next(s.(trying := s.trying - {id}, sleeping := s.sleeping + {id}))
      else
        Next(s.(trying := s.trying - {id}, outstanding := s.outstanding + 1,
                running := s.running + [Op(id, {}, 0)], place := s.place[id := InFlight]))
    case Spurious(id) =>
      if id !in s.sleeping then Disabled
      else Next(s.(sleeping := s.sleeping - {id}, trying := s.trying + {id}))
    case LogWrite(i, b) =>
      if i >= |s.running| then Disabled
      else if |s.lh| >= LOGBLOCKS then Panic(TooBig)
      else if s.outstanding < 1 then Panic(OutsideTrans)
      else
        var op := s.running[i];
        if b in s.lh then
          Next(s.(running := s.running[i := op.(writes := op.writes + {b})]))
        else
          Next(s.(running := s.running[i := op.(writes := op.writes + {b}, added := op.added + 1)],
                  lh := s.lh + [b]))
    case EndOp(i) =>
      if i >= |s.running| then Disabled
      else if s.committing then Panic(AlreadyCommitting)
      else
        var t := s.(running := Remove(s.running, i), ended := s.ended + [s.running[i]],
                    outstanding := s.outstanding - 1,
                    place := s.place[s.running[i].id := Ended]);
        if t.outstanding == 0 then Next(t.(committing := true))
        else Next(t.(trying := t.trying + t.sleeping, sleeping := {}))
    case Commit =>
      if !s.committing || s.cleared then Disabled
      else
        Next(s.(cleared := true, lh := [], ended := [],
                history := s.history + [Txn(s.ended, s.lh)],
                place := map id | id in s.place ::
                  if s.place[id] == Ended then InTxn(|s.history|) else s.place[id]))
    case CommitDone =>
      if !s.cleared then Disabled
      else Next(s.(committing := false, cleared := false,
                   trying := s.trying + s.sleeping, sleeping := {}))
  }

  /** No operation asks to put more than k blocks into the log. */
  predicate Allowed(k: nat, s: State, a: Action) {
    a.LogWrite? && a.i < |s.running| && a.b !in s.lh ==> s.running[a.i].added < k
  }

  /** Runs a schedule. It stops at the first panic, and at a request that the
      schedule or the budget k rules out. */
  function Exec(k: nat, s: State, acts: seq<Action>): Outcome
    decreases |acts|
  {
    if acts == [] then Next(s)
    else if !Allowed(k, s, acts[0]) then Disabled
    else match Do(s, acts[0])
      case Next(t) => Exec(k, t, acts[1..])
      case o => o
  }

  // ---- invariant ----

  /** Log space still promised to operations in flight. */
  function Reserved(ops: seq<Op>): int {
    if ops == [] then 0 else MAXOPBLOCKS - ops[0].added + Reserved(ops[1..])
  }

  ghost predicate DistinctIds(ops: seq<Op>) {
    forall i, j :: 0 <= i < j < |ops| ==> ops[i].id != ops[j].id
  }

  ghost predicate At(place: map<nat, Place>, ops: seq<Op>, p: Place) {
    forall i :: 0 <= i < |ops| ==> ops[i].id in place && place[ops[i].id] == p
  }

  ghost predicate Logged(ops: seq<Op>, blocks: seq<nat>) {
    forall op, b :: op in ops && b in op.writes ==> b in blocks
  }

  ghost predicate WrittenBy(b: nat, ops: seq<Op>) {
    exists op :: op in ops && b in op.writes
  }

  /** A commit holds exactly the writes of its operations. */
  ghost predicate Exact(t: Txn) {
    && DistinctIds(t.ops)
    && Logged(t.ops, t.blocks)
    && (forall b :: b in t.blocks ==> WrittenBy(b, t.ops))
  }

  ghost predicate Distinct(q: seq<nat>) {
    forall i, j :: 0 <= i < j < |q| ==> q[i] != q[j]
  }

  ghost predicate Counters(s: State) {
    && s.outstanding == |s.running|
    && (s.committing ==> s.running == [])
    && (s.cleared ==> s.committing)
    && (s.running == [] && (!s.committing || s.cleared) ==> s.lh == [] && s.ended == [])
    && (s.sleeping != {} ==> s.committing || Full(s))
  }

  ghost predicate Blocks(s: State) {
    && Distinct(s.lh)
    && Logged(s.running, s.lh)
    && Logged(s.ended, s.lh)
    && (forall b :: b in s.lh ==> WrittenBy(b, s.running) || WrittenBy(b, s.ended))
    && (forall t :: 0 <= t < |s.history| ==> Exact(s.history[t]) && Distinct(s.history[t].blocks))
  }

  ghost predicate Places(s: State) {
    && DistinctIds(s.running) && DistinctIds(s.ended)
    && At(s.place, s.running, InFlight)
    && At(s.place, s.ended, Ended)
    && (forall t :: 0 <= t < |s.history| ==> At(s.place, s.history[t].ops, InTxn(t)))
    && (forall id :: id in s.trying + s.sleeping ==> id !in s.place)
  }

  ghost predicate Room(k: nat, s: State) {
    && (forall i :: 0 <= i < |s.running| ==> s.running[i].added <= k)
    && (k <= MAXOPBLOCKS ==> |s.lh| + Reserved(s.running) <= LOGBLOCKS)
    && (k < MAXOPBLOCKS ==> |s.lh| < LOGBLOCKS)
  }

  ghost predicate Inv(k: nat, s: State) {
    Counters(s) && Blocks(s) && Places(s) && Room(k, s)
  }

  // ---- Reserved ----

  lemma {:induction false} ReservedAppend(ops: seq<Op>, o: Op)
    ensures Reserved(ops + [o]) == Reserved(ops) + MAXOPBLOCKS - o.added
  {
    if ops != [] {
      assert (ops + [o])[1..] == ops[1..] + [o];
      ReservedAppend(ops[1..], o);
    }
  }

  lemma {:induction false} ReservedUpdate(ops: seq<Op>, i: nat, o: Op)
    requires i < |ops|
    ensures Reserved(ops[i := o]) == Reserved(ops) + ops[i].added - o.added
  {
    if i == 0 {
      assert ops[0 := o][1..] == ops[1..];
    } else {
      assert ops[i := o][1..] == ops[1..][i - 1 := o];
      ReservedUpdate(ops[1..], i - 1, o);
    }
  }

  lemma {:induction false} ReservedRemove(ops: seq<Op>, i: nat)
    requires i < |ops|
    ensures Reserved(Remove(ops, i)) == Reserved(ops) - MAXOPBLOCKS + ops[i].added
  {
    if i == 0 {
      assert Remove(ops, 0) == ops[1..];
    } else {
      assert Remove(ops, i)[1..] == Remove(ops[1..], i - 1);
      ReservedRemove(ops[1..], i - 1);
    }
  }

  /** Operations within budget k leave at least 10 - k blocks reserved each. */
  lemma {:induction false} ReservedAtLeast(ops: seq<Op>, k: nat)
    requires forall i :: 0 <= i < |ops| ==> ops[i].added <= k
    ensures Reserved(ops) >= (MAXOPBLOCKS - k) * |ops|
  {
    if ops != [] {
      ReservedAtLeast(ops[1..], k);
    }
  }

  lemma ReservedSome(ops: seq<Op>, k: nat)
    requires ops != [] && k < MAXOPBLOCKS ==> forall i :: 0 <= i < |ops| ==> ops[i].added <= k
    ensures ops != [] && k < MAXOPBLOCKS ==> Reserved(ops) > 0
  {
    if ops != [] && k < MAXOPBLOCKS {
      ReservedAtLeast(ops, k);
    }
  }

  lemma {:induction false} ReservedAtMost(ops: seq<Op>)
    ensures Reserved(ops) <= MAXOPBLOCKS * |ops|
  {
    if ops != [] {
      ReservedAtMost(ops[1..]);
    }
  }

  // ---- preservation ----

  lemma StepCounters(k: nat, s: State, a: Action)
    requires Inv(k, s) && Do(s, a).Next?
    ensures Counters(Do(s, a).s)
  {
  }

  lemma BeginRoom(k: nat, s: State, id: nat)
    requires Room(k, s) && s.outstanding == |s.running| && !Full(s)
    ensures Room(k, s.(running := s.running + [Op(id, {}, 0)]))
  {
    ReservedAppend(s.running, Op(id, {}, 0));
    ReservedAtMost(s.running);
  }

  lemma WriteRoom(k: nat, s: State, i: nat, op: Op, lh: seq<nat>)
    requires Room(k, s) && i < |s.running| && op.added <= k
    requires |lh| - |s.lh| == op.added - s.running[i].added >= 0
    ensures Room(k, s.(running := s.running[i := op], lh := lh))
  {
    ReservedUpdate(s.running, i, op);
    ReservedSome(s.running[i := op], k);
  }

  lemma EndRoom(k: nat, s: State, i: nat)
    requires Room(k, s) && i < |s.running|
    ensures Room(k, s.(running := Remove(s.running, i)))
  {
    ReservedRemove(s.running, i);
  }

  lemma RoomSame(k: nat, s: State, t: State)
    requires Room(k, s) && t.running == s.running && |t.lh| <= |s.lh|
    ensures Room(k, t)
  {
  }

  lemma StepRoom(k: nat, s: State, a: Action)
    requires Inv(k, s) && Allowed(k, s, a) && Do(s, a).Next?
    ensures Room(k, Do(s, a).s)
  {
    var t := Do(s, a).s;
    assert forall i :: 0 <= i < |s.running| ==> s.running[i].added <= k;
    hide Blocks, Places, Room, Full;
    match a
    case TryBegin(id) =>
      if !s.committing && !Full(s) {
        BeginRoom(k, s, id);
        RoomSame(k, s.(running := s.running + [Op(id, {}, 0)]), t);
      } else {
        RoomSame(k, s, t);
      }
    case LogWrite(i, b) =>
      WriteRoom(k, s, i, t.running[i], t.lh);
      RoomSame(k, s.(running := s.running[i := t.running[i]], lh := t.lh), t);
    case EndOp(i) =>
      EndRoom(k, s, i);
      RoomSame(k, s.(running := Remove(s.running, i)), t);
    case _ =>
      RoomSame(k, s, t);
  }

  lemma StepBlocks(k: nat, s: State, a: Action)
    requires Inv(k, s) && Do(s, a).Next?
    ensures Blocks(Do(s, a).s)
  {
    var t := Do(s, a).s;
    match a
    case TryBegin(_) => KeepWritten(s, t);
    case LogWrite(i, b) => WriteBlocks(k, s, i, b);
    case EndOp(i) => EndBlocks(k, s, i);
    case Commit =>
      assert s.running == [];
      assert Exact(t.history[|s.history|]);
    case _ =>
  }

  lemma WriteBlocks(k: nat, s: State, i: nat, b: nat)
    requires Inv(k, s) && Do(s, LogWrite(i, b)).Next?
    ensures Blocks(Do(s, LogWrite(i, b)).s)
  {
    var t := Do(s, LogWrite(i, b)).s;
    var op := t.running[i];
    assert op in t.running && b in op.writes;
    forall c | WrittenBy(c, s.running) ensures WrittenBy(c, t.running) {
      var j :| 0 <= j < |s.running| && c in s.running[j].writes;
      assert t.running[j] in t.running && c in t.running[j].writes;
    }
  }

  lemma EndBlocks(k: nat, s: State, i: nat)
    requires Inv(k, s) && Do(s, EndOp(i)).Next?
    ensures Blocks(Do(s, EndOp(i)).s)
  {
  }

  /** A step that keeps every recorded write keeps every block justified. */
  lemma KeepWritten(s: State, t: State)
    requires forall op :: op in s.running ==> op in t.running || op in t.ended
    requires forall op :: op in s.ended ==> op in t.ended
    ensures forall b :: WrittenBy(b, s.running) || WrittenBy(b, s.ended) ==>
              WrittenBy(b, t.running) || WrittenBy(b, t.ended)
  {
  }

  lemma StepPlaces(k: nat, s: State, a: Action)
    requires Inv(k, s) && Do(s, a).Next?
    ensures Places(Do(s, a).s)
  {
    var t := Do(s, a).s;
    match a
    case TryBegin(_) =>
    case EndOp(i) =>
      EndPlaces(k, s, i);
    case Commit =>
      assert At(t.place, s.ended, InTxn(|s.history|));
    case _ =>
  }

  lemma EndPlaces(k: nat, s: State, i: nat)
    requires Inv(k, s) && i < |s.running| && Do(s, EndOp(i)).Next?
    ensures Places(Do(s, EndOp(i)).s)
  {
  }

  lemma StepInv(k: nat, s: State, a: Action)
    requires Inv(k, s) && Allowed(k, s, a) && Do(s, a).Next?
    ensures Inv(k, Do(s, a).s)
  {
    hide Counters, Blocks, Places, Room;
    StepCounters(k, s, a);
    StepRoom(k, s, a);
    StepBlocks(k, s, a);
    StepPlaces(k, s, a);
  }

  // ---- whole runs ----

  /** Every step allowed by the budget either keeps the invariant or is the
      one panic that the budget does not rule out. */
  lemma StepSafe(k: nat, s: State, a: Action)
    requires Inv(k, s) && Allowed(k, s, a)
    ensures match Do(s, a)
      case Next(t) => Inv(k, t)
      case Panic(why) =>
        && why == TooBig
        && |s.lh| >= LOGBLOCKS && k >= MAXOPBLOCKS
        && (k == MAXOPBLOCKS ==> a.LogWrite? && a.b in s.lh)
      case Disabled => true
  {
    match Do(s, a)
    case Next(_) => StepInv(k, s, a);
    case Panic(_) =>
      if a.LogWrite? {
        FullLog(k, s, a.i);
      }
    case Disabled =>
  }

  /** A full log needs an operation in flight that has used up MAXOPBLOCKS. */
  lemma FullLog(k: nat, s: State, i: nat)
    requires Room(k, s) && i < |s.running| && |s.lh| >= LOGBLOCKS
    ensures k >= MAXOPBLOCKS
    ensures k == MAXOPBLOCKS ==> s.running[i].added == MAXOPBLOCKS
  {
    ReservedAtLeast(s.running, k);
    if k == MAXOPBLOCKS {
      var op := s.running[i].(added := MAXOPBLOCKS);
      ReservedUpdate(s.running, i, op);
      ReservedAtLeast(s.running[i := op], k);
    }
  }

  lemma {:induction false} ExecSafe(k: nat, s: State, acts: seq<Action>)
    requires Inv(k, s)
    ensures match Exec(k, s, acts)
      case Next(t) => Inv(k, t)
      case Panic(why) => why == TooBig && k >= MAXOPBLOCKS
      case Disabled => true
    decreases |acts|
  {
    if acts != [] && Allowed(k, s, acts[0]) {
      StepSafe(k, s, acts[0]);
      if Do(s, acts[0]).Next? {
        ExecSafe(k, Do(s, acts[0]).s, acts[1..]);
      }
    }
  }

  /** What a caller of the log may rely on in every reachable state. */
  ghost predicate GroupCommitSafe(s: State) {
    && s.outstanding == |s.running|
    && (s.committing ==> s.outstanding == 0)
    // every committed operation is wholly inside one commit, and in no other
    && (forall t, i :: 0 <= t < |s.history| && 0 <= i < |s.history[t].ops| ==>
          var op := s.history[t].ops[i];
          && op.writes <= (set b | b in s.history[t].blocks)
          && op !in s.running && op !in s.ended
          && (forall u, j :: 0 <= u < |s.history| && 0 <= j < |s.history[u].ops| && (u, j) != (t, i) ==>
                s.history[u].ops[j].id != op.id))
    // and a commit installs nothing that no operation of its own wrote
    && (forall t, b :: 0 <= t < |s.history| && b in s.history[t].blocks ==> WrittenBy(b, s.history[t].ops))
    // no wakeup is lost: a sleeper always has someone left to wake it
    && (s.sleeping != {} ==> s.committing || (Full(s) && s.outstanding > 0))
  }

  lemma InvSafe(k: nat, s: State)
    requires Inv(k, s)
    ensures GroupCommitSafe(s)
  {
  }

  /** Over all interleavings and every budget: the commit protocol is safe,
      and neither "log.committing" nor "log_write outside of trans" happens. */
  lemma EveryRunSafe(k: nat, acts: seq<Action>)
    ensures match Exec(k, Init(), acts)
      case Next(s) => GroupCommitSafe(s)
      case Panic(why) => why == TooBig
      case Disabled => true
  {
    ExecSafe(k, Init(), acts);
    if Exec(k, Init(), acts).Next? {
      InvSafe(k, Exec(k, Init(), acts).s);
    }
  }

  // ---- exactly which budgets avoid "too big a transaction" ----

  ghost predicate PanicFree(k: nat) {
    forall acts :: !Exec(k, Init(), acts).Panic?
  }

  function Writes(i: nat, first: nat, m: nat): (acts: seq<Action>)
    ensures |acts| == m
    decreases m
  {
    if m == 0 then [] else [LogWrite(i, first)] + Writes(i, first + 1, m - 1)
  }

  lemma {:induction false} ExecConcat(k: nat, s: State, xs: seq<Action>, ys: seq<Action>)
    requires Exec(k, s, xs).Next?
    ensures Exec(k, s, xs + ys) == Exec(k, Exec(k, s, xs).s, ys)
    decreases |xs|
  {
    if xs == [] {
      assert xs + ys == ys;
    } else {
      assert (xs + ys)[1..] == xs[1..] + ys;
      ExecConcat(k, Do(s, xs[0]).s, xs[1..], ys);
    }
  }

  /** An operation can add m fresh blocks while the log has room for them. */
  lemma {:induction false} Fill(k: nat, s: State, i: nat, first: nat, m: nat, rest: seq<Action>) returns (t: State)
    requires i < |s.running| && s.outstanding >= 1
    requires |s.lh| + m <= LOGBLOCKS && s.running[i].added + m <= k
    requires forall b :: b in s.lh ==> b < first
    ensures Exec(k, s, Writes(i, first, m) + rest) == Exec(k, t, rest)
    ensures t.outstanding == s.outstanding && |t.running| == |s.running| && |t.lh| == |s.lh| + m
    ensures t.committing == s.committing && t.cleared == s.cleared
    ensures forall j :: 0 <= j < |s.running| && j != i ==> t.running[j] == s.running[j]
    ensures forall b :: b in t.lh ==> b < first + m
    ensures s.lh <= t.lh && (m > 0 ==> first in t.lh)
    decreases m
  {
    if m == 0 {
      t := s;
      assert Writes(i, first, m) + rest == rest;
    } else {
      var a := LogWrite(i, first);
      assert (Writes(i, first, m) + rest)[1..] == Writes(i, first + 1, m - 1) + rest;
      assert first !in s.lh;
      t := Fill(k, Do(s, a).s, i, first + 1, m - 1, rest);
      assert t.lh[|s.lh|] == first;
    }
  }

  function ThreeBegin(): seq<Action> {
    [Enter(0), Enter(1), Enter(2), TryBegin(0), TryBegin(1), TryBegin(2)]
  }

  /** Three operations add m blocks each, from block first on. */
  function ThreeFill(first: nat, m: nat): seq<Action> {
    Writes(0, first, m) + (Writes(1, first + m, m) + Writes(2, first + 2 * m, m))
  }

  lemma ThreeFilled(k: nat, s: State, first: nat, m: nat, rest: seq<Action>) returns (t: State)
    requires 0 < m == MAXOPBLOCKS <= k
    requires s.outstanding == 3 && s.lh == [] && |s.running| == 3
    requires forall i :: 0 <= i < 3 ==> s.running[i].added == 0
    ensures Exec(k, s, ThreeFill(first, m) + rest) == Exec(k, t, rest)
    ensures t.outstanding == 3 && |t.running| == 3 && |t.lh| == LOGBLOCKS && first in t.lh
    ensures t.committing == s.committing && t.cleared == s.cleared
  {
    hide Exec, Writes;
    var w2 := Writes(2, first + 2 * m, m) + rest;
    var w1 := Writes(1, first + m, m) + w2;
    assert ThreeFill(first, m) + rest == Writes(0, first, m) + w1;
    var s1 := Fill(k, s, 0, first, m, w1);
    var s2 := Fill(k, s1, 1, first + m, m, w2);
    t := Fill(k, s2, 2, first + 2 * m, m, rest);
  }

  /** Three operations that each add MAXOPBLOCKS blocks, after which one of
      them writes a block that is already in the log. */
  lemma ThreeFillPanics(k: nat, s: State)
    requires k >= MAXOPBLOCKS
    requires s.outstanding == 3 && s.lh == [] && |s.running| == 3
    requires forall i :: 0 <= i < 3 ==> s.running[i].added == 0
    ensures Exec(k, s, ThreeFill(0, MAXOPBLOCKS) + [LogWrite(0, 0)]) == Panic(TooBig)
  {
    var last := [LogWrite(0, 0)];
    var t := ThreeFilled(k, s, 0, MAXOPBLOCKS, last);
    assert Do(t, last[0]) == Panic(TooBig);
    assert Exec(k, t, last) == Panic(TooBig);
  }

  lemma ThreeBegun(k: nat) returns (s: State)
    ensures Exec(k, Init(), ThreeBegin()) == Next(s)
    ensures s.outstanding == 3 && s.lh == [] && |s.running| == 3 && !s.committing && !s.cleared
    ensures forall i :: 0 <= i < 3 ==> s.running[i].added == 0
  {
    var enter := ThreeBegin();
    var s1 := Do(Init(), Enter(0)).s;
    var s2 := Do(s1, Enter(1)).s;
    var s3 := Do(s2, Enter(2)).s;
    var s4 := Do(s3, TryBegin(0)).s;
    var s5 := Do(s4, TryBegin(1)).s;
    s := Do(s5, TryBegin(2)).s;
    assert Exec(k, s5, enter[5..]) == Exec(k, s, enter[6..]);
    assert Exec(k, s4, enter[4..]) == Exec(k, s5, enter[5..]);
    assert Exec(k, s3, enter[3..]) == Exec(k, s4, enter[4..]);
    assert Exec(k, s2, enter[2..]) == Exec(k, s3, enter[3..]);
    assert Exec(k, s1, enter[1..]) == Exec(k, s2, enter[2..]);
  }

  /** log_write tests for a full log before it looks for an absorbed block, so
      MAXOPBLOCKS distinct blocks per operation are one too many: all runs are
      free of panics exactly when operations add fewer than MAXOPBLOCKS. */
  lemma PanicFreeIffBelowMax(k: nat)
    ensures PanicFree(k) <==> k < MAXOPBLOCKS
  {
    if k < MAXOPBLOCKS {
      forall acts ensures !Exec(k, Init(), acts).Panic? {
        ExecSafe(k, Init(), acts);
      }
    } else {
      var s := ThreeBegun(k);
      ThreeFillPanics(k, s);
      ExecConcat(k, Init(), ThreeBegin(), ThreeFill(0, MAXOPBLOCKS) + [LogWrite(0, 0)]);
    }
  }

  // ---- exactly which budgets leave a buffer that the log does not pin ----

  /** In every run, the blocks a commit has in the log are fewer than the buffers.
      Whether commit finds one of the others unreferenced depends on who else
      holds buffers, which the log does not know. */
  ghost predicate CommitsFit(k: nat) {
    forall acts :: match Exec(k, Init(), acts)
      case Next(s) => s.committing ==> |s.lh| < NBUF
      case _ => true
  }

  function ThreeCommit(first: nat): seq<Action> {
    ThreeBegin() + (ThreeFill(first, MAXOPBLOCKS) + [EndOp(0), EndOp(0), EndOp(0)])
  }

  /** Three operations of MAXOPBLOCKS blocks each end in a commit of NBUF. */
  lemma ThreeCommitFull(k: nat, first: nat) returns (s: State)
    requires k >= MAXOPBLOCKS
    ensures Exec(k, Init(), ThreeCommit(first)) == Next(s) && s.committing && !s.cleared && |s.lh| == NBUF
  {
    var ends := [EndOp(0), EndOp(0), EndOp(0)];
    var b := ThreeBegun(k);
    var t := ThreeFilled(k, b, first, MAXOPBLOCKS, ends);
    ExecConcat(k, Init(), ThreeBegin(), ThreeFill(first, MAXOPBLOCKS) + ends);
    s := ThreeEnd(k, t);
  }

  lemma ThreeEnd(k: nat, t: State) returns (s: State)
    requires t.outstanding == 3 && |t.running| == 3 && !t.committing && !t.cleared
    ensures Exec(k, t, [EndOp(0), EndOp(0), EndOp(0)]) == Next(s) && s.committing && !s.cleared && s.lh == t.lh
  {
    var ends := [EndOp(0), EndOp(0), EndOp(0)];
    var t1 := Do(t, EndOp(0)).s;
    var t2 := Do(t1, EndOp(0)).s;
    s := Do(t2, EndOp(0)).s;
    assert Exec(k, t2, ends[2..]) == Exec(k, s, ends[3..]);
    assert Exec(k, t1, ends[1..]) == Exec(k, t2, ends[2..]);
  }

  /** No commit pins every buffer, in any run, exactly when operations add fewer
      than MAXOPBLOCKS. */
  lemma CommitsFitIffBelowMax(k: nat)
    ensures CommitsFit(k) <==> k < MAXOPBLOCKS
  {
    if k < MAXOPBLOCKS {
      forall acts ensures Exec(k, Init(), acts).Next? ==> |Exec(k, Init(), acts).s.lh| < NBUF {
        ExecSafe(k, Init(), acts);
      }
    } else {
      var s := ThreeCommitFull(k, 0);
    }
  }

  // ---- operations known by the blocks they write ----

  /** The operation that writes b is one that writes the blocks of may. */
  predicate Within(may: map<nat, set<nat>>, s: State, a: Action) {
    a.LogWrite? && a.i < |s.running| ==> s.running[a.i].id in may && a.b in may[s.running[a.i].id]
  }

  /** Runs a schedule in which operation id writes no block outside may[id]. */
  function ExecWithin(may: map<nat, set<nat>>, s: State, acts: seq<Action>): Outcome
    decreases |acts|
  {
    if acts == [] then Next(s)
    else if !Within(may, s, acts[0]) then Disabled
    else match Do(s, acts[0])
      case Next(t) => ExecWithin(may, t, acts[1..])
      case o => o
  }

  /** Each operation has added no more blocks than it has written, all of them
      its own. */
  ghost predicate OwnBlocks(may: map<nat, set<nat>>, s: State) {
    forall i :: 0 <= i < |s.running| ==>
      && s.running[i].added <= |s.running[i].writes|
      && (s.running[i].writes == {} || (s.running[i].id in may && s.running[i].writes <= may[s.running[i].id]))
  }

  lemma OwnWrite(k: nat, may: map<nat, set<nat>>, s: State, i: nat, b: nat)
    requires Logged(s.running, s.lh) && OwnBlocks(may, s) && Within(may, s, LogWrite(i, b)) && i < |s.running|
    requires forall id :: id in may ==> |may[id]| <= k
    ensures var op := s.running[i];
      && |op.writes| <= |op.writes + {b}| && op.writes + {b} <= may[op.id]
      && (b !in s.lh ==> op.added < k && |op.writes + {b}| == |op.writes| + 1)
  {
    var op := s.running[i];
    assert op in s.running;
    assert b !in s.lh ==> b !in op.writes;
    SubsetSize(op.writes + {b}, may[op.id]);
    SubsetSize(op.writes, op.writes + {b});
  }

  lemma OwnStep(k: nat, may: map<nat, set<nat>>, s: State, a: Action)
    requires Inv(k, s) && OwnBlocks(may, s) && Within(may, s, a)
    requires forall id :: id in may ==> |may[id]| <= k
    ensures Allowed(k, s, a) && (Do(s, a).Next? ==> OwnBlocks(may, Do(s, a).s))
  {
    hide Counters, Places, Room, Logged;
    if a.LogWrite? && a.i < |s.running| {
      OwnWrite(k, may, s, a.i, a.b);
    }
  }

  lemma {:induction false} OwnExec(k: nat, may: map<nat, set<nat>>, s: State, acts: seq<Action>)
    requires Inv(k, s) && OwnBlocks(may, s) && k < MAXOPBLOCKS
    requires forall id :: id in may ==> |may[id]| <= k
    ensures match ExecWithin(may, s, acts)
      case Next(t) => Inv(k, t)
      case Panic(_) => false
      case Disabled => true
    decreases |acts|
  {
    if acts != [] && Within(may, s, acts[0]) {
      OwnStep(k, may, s, acts[0]);
      StepSafe(k, s, acts[0]);
      if Do(s, acts[0]).Next? {
        OwnExec(k, may, Do(s, acts[0]).s, acts[1..]);
      }
    }
  }

  /** Operations that each write fewer than MAXOPBLOCKS blocks: no run of the log
      panics, and every commit leaves a buffer that the log does not pin. */
  lemma FewBlocksSafe(k: nat, may: map<nat, set<nat>>, acts: seq<Action>)
    requires k < MAXOPBLOCKS && forall id :: id in may ==> |may[id]| <= k
    ensures match ExecWithin(may, Init(), acts)
      case Next(s) => |s.lh| < NBUF && GroupCommitSafe(s)
      case Panic(_) => false
      case Disabled => true
  {
    OwnExec(k, may, Init(), acts);
    if ExecWithin(may, Init(), acts).Next? {
      InvSafe(k, ExecWithin(may, Init(), acts).s);
    }
  }
}
