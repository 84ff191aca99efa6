/** sleep and wakeup of kernel/proc.c, step by step: a condition lock, each
    process's own lock, state and channel, the scheduler, and kill's spurious
    wakeups, interleaved in every way. What the code between acquire and release
    of the condition lock may do is a parameter, so that one proof serves
    semaphores, sleep-locks, pipes and wait. */
module SleepWake {
  import opened Common

  const NPROC: nat := 64

  type Pid = x: nat | x < NPROC witness 0
  type Chan = nat

  /** What a process that holds the condition lock does next. */
  datatype Act<S, L> =
    | Update(v: S, l: L)
    | Wake(c: Chan, l: L)
    | Wait(c: Chan, l: L)
    | Leave(l: L)

  /** The code under the lock. may: the actions it can take. blocked: when a
      process has reason to sleep on a channel. owes: channels it must still
      wake. quiet: channels it has woken since it took the lock. outside: how
      others may change the state without the lock. good: what holds of the
      state throughout. fits: what the code knows of the state where it is.
      enters: which processes may come for the lock. */
  datatype Client<!S, !L> = Client(
    may: (Pid, L, S, Act<S, L>) -> bool,
    blocked: (Chan, S) -> bool,
    owes: L -> set<Chan>,
    quiet: L -> set<Chan>,
    outside: (S, S) -> bool,
    good: S -> bool,
    fits: (L, S) -> bool,
    enters: (Pid, S) -> bool)

  /** Where a process is. In: holds the condition lock. Waking(c, i): in wakeup(c),
      at process i. Sleep1: entering sleep, about to take its own lock. Sleep2:
      has it, about to give up the condition lock. Sleep3: about to set its state
      and channel. Sleep4: about to switch away. Away: switched away. Back:
      switched in again, about to clear its channel. Relock: about to retake the
      condition lock. */
  datatype Pc = Out | In | Waking(c: Chan, i: nat) | Sleep1(c: Chan) | Sleep2(c: Chan)
    | Sleep3(c: Chan) | Sleep4(c: Chan) | Away(c: Chan) | Back | Relock

  datatype Proc<L> = Proc(pc: Pc, sleeping: bool, chan: Option<Chan>, locked: bool, l: L)

  datatype State<S, L> = State(v: S, holder: Option<Pid>, procs: seq<Proc<L>>)

  datatype Step<S, L> =
    | Enter(p: Pid)
    | Do(p: Pid, act: Act<S, L>)
    | Scan(p: Pid)                // one turn of wakeup's loop
    | TakeOwn(p: Pid)             // sleep: acquire(&p->lock)
    | GiveUp(p: Pid)              // sleep: release(lk)
    | FallAsleep(p: Pid)          // sleep: chan and state set
    | SwitchOut(p: Pid)           // sched, and the scheduler's release of p->lock
    | SwitchIn(p: Pid)            // the scheduler picks a runnable process
    | Tidy(p: Pid)                // sleep: chan cleared, p->lock released
    | Retake(p: Pid)              // sleep: acquire(lk)
    | Kill(p: Pid)                // kill makes a sleeper runnable
    | Outside(v: S)

  predicate Holds(pc: Pc) {
    pc.In? || pc.Waking? || pc.Sleep1? || pc.Sleep2?
  }

  function Set<S, L>(s: State<S, L>, p: Pid, q: Proc<L>): State<S, L>
    requires |s.procs| == NPROC
  {
    s.(procs := s.procs[p := q])
  }

  predicate Can<S, L>(cl: Client<S, L>, s: State<S, L>, st: Step<S, L>)
    requires |s.procs| == NPROC
  {
    match st
    case Enter(p) => s.procs[p].pc.Out? && s.holder.None? && cl.enters(p, s.v)
    case Do(p, a) => s.procs[p].pc.In? && cl.may(p, s.procs[p].l, s.v, a)
    case Scan(p) => s.procs[p].pc.Waking? &&
      (s.procs[p].pc.i >= NPROC || s.procs[p].pc.i == p || !s.procs[s.procs[p].pc.i].locked)
    case TakeOwn(p) => s.procs[p].pc.Sleep1? && !s.procs[p].locked
    case GiveUp(p) => s.procs[p].pc.Sleep2?
    case FallAsleep(p) => s.procs[p].pc.Sleep3?
    case SwitchOut(p) => s.procs[p].pc.Sleep4?
    case SwitchIn(p) => s.procs[p].pc.Away? && !s.procs[p].sleeping && !s.procs[p].locked
    case Tidy(p) => s.procs[p].pc.Back?
    case Retake(p) => s.procs[p].pc.Relock? && s.holder.None?
    case Kill(p) => !s.procs[p].locked
    case Outside(v) => cl.outside(s.v, v)
  }

  function Next<S, L>(s: State<S, L>, st: Step<S, L>): State<S, L>
    requires |s.procs| == NPROC
  {
    match st
    case Enter(p) => Set(s, p, s.procs[p].(pc := In)).(holder := Some(p))
    case Do(p, Update(v, l)) => Set(s, p, s.procs[p].(l := l)).(v := v)
    case Do(p, Wake(c, l)) => Set(s, p, s.procs[p].(pc := Waking(c, 0), l := l))
    case Do(p, Wait(c, l)) => Set(s, p, s.procs[p].(pc := Sleep1(c), l := l))
    case Do(p, Leave(l)) => Set(s, p, s.procs[p].(pc := Out, l := l)).(holder := None)
    case Scan(p) => Scanned(s, p)
    case TakeOwn(p) => if s.procs[p].pc.Sleep1? then
        Set(s, p, s.procs[p].(pc := Sleep2(s.procs[p].pc.c), locked := true)) else s
    case GiveUp(p) => if s.procs[p].pc.Sleep2? then
        Set(s, p, s.procs[p].(pc := Sleep3(s.procs[p].pc.c))).(holder := None) else s
    case FallAsleep(p) => if s.procs[p].pc.Sleep3? then
        Set(s, p, s.procs[p].(pc := Sleep4(s.procs[p].pc.c), sleeping := true, chan := Some(s.procs[p].pc.c))) else s
    case SwitchOut(p) => if s.procs[p].pc.Sleep4? then
        Set(s, p, s.procs[p].(pc := Away(s.procs[p].pc.c), locked := false)) else s
    case SwitchIn(p) => Set(s, p, s.procs[p].(pc := Back, locked := true))
    case Tidy(p) => Set(s, p, s.procs[p].(pc := Relock, chan := None, locked := false))
    case Retake(p) => Set(s, p, s.procs[p].(pc := In)).(holder := Some(p))
    case Kill(p) => Set(s, p, s.procs[p].(sleeping := false))
    case Outside(v) => s.(v := v)
  }

  /** wakeup's loop body at process i: the process that runs it is skipped. */
  function Scanned<S, L>(s: State<S, L>, p: Pid): State<S, L>
    requires |s.procs| == NPROC
  {
    var me := s.procs[p];
    if !me.pc.Waking? then s
    else if me.pc.i >= NPROC then Set(s, p, me.(pc := In))
    else
      var t := Set(s, p, me.(pc := Waking(me.pc.c, me.pc.i + 1)));
      var q := s.procs[me.pc.i];
      if me.pc.i != p && q.sleeping && q.chan == Some(me.pc.c) then Set(t, me.pc.i, q.(sleeping := false)) else t
  }

  // ---- what the code under the lock must respect ----

  /** Code that is about to take the lock owes nothing and knows nothing. */
  ghost predicate Ready<S(!new), L>(cl: Client<S, L>, l: L) {
    cl.owes(l) == {} && cl.quiet(l) == {} && forall v: S :: cl.good(v) ==> cl.fits(l, v)
  }

  /** Every channel an action unblocks is owed a wakeup, or has had one since
      the lock was taken; nobody sleeps or leaves while a channel he owes a
      wakeup is unblocked. */
  ghost predicate ActOk<S(!new), L>(cl: Client<S, L>, l: L, v: S, a: Act<S, L>) {
    match a
    case Update(v1, l1) =>
      && cl.good(v1) && cl.fits(l1, v1) && cl.quiet(l1) <= cl.quiet(l)
      && (forall c :: c in cl.owes(l) && !cl.blocked(c, v1) ==> c in cl.owes(l1) || c in cl.quiet(l1))
      && (forall c: Chan :: cl.blocked(c, v) && !cl.blocked(c, v1) ==> c in cl.owes(l1) || c in cl.quiet(l1))
    case Wake(c, l1) =>
      && cl.fits(l1, v) && cl.quiet(l1) <= cl.quiet(l) + {c}
      && forall d :: d in cl.owes(l) && !cl.blocked(d, v) && d != c ==> d in cl.owes(l1)
    case Wait(c, l1) => cl.blocked(c, v) && (forall d :: d in cl.owes(l) ==> cl.blocked(d, v)) && Ready(cl, l1)
    case Leave(l1) => (forall d :: d in cl.owes(l) ==> cl.blocked(d, v)) && Ready(cl, l1)
  }

  ghost predicate ClientOk<S(!new), L(!new)>(cl: Client<S, L>) {
    && (forall p: Pid, l: L, v: S, a: Act<S, L> :: cl.good(v) && cl.fits(l, v) && cl.may(p, l, v, a) ==>
          ActOk(cl, l, v, a))
    && (forall v: S, v1: S :: cl.good(v) && cl.outside(v, v1) ==> cl.good(v1))
    && (forall v: S, v1: S, c: Chan :: cl.good(v) && cl.outside(v, v1) && cl.blocked(c, v) ==> cl.blocked(c, v1))
    && (forall v: S, v1: S, l: L :: cl.good(v) && cl.outside(v, v1) && cl.fits(l, v) ==> cl.fits(l, v1))
  }

  // ---- the invariant ----

  /** q sleeps on c, or has given up the condition lock in order to. */
  predicate Waits<L>(q: Proc<L>, c: Chan) {
    q.pc == Sleep3(c) || (q.sleeping && q.chan == Some(c))
  }

  /** The condition lock has one holder. */
  ghost predicate OneHolder<S, L>(s: State<S, L>) {
    |s.procs| == NPROC && forall p: Pid :: s.holder == Some(p) <==> Holds(s.procs[p].pc)
  }

  /** A process's own lock, state and channel agree with where it is. */
  predicate Coherent<L>(q: Proc<L>) {
    && (q.locked <==> q.pc.Sleep2? || q.pc.Sleep3? || q.pc.Sleep4? || q.pc.Back?)
    && (q.sleeping ==> q.pc.Sleep4? || q.pc.Away?)
    && (q.pc.Sleep4? || q.pc.Away? ==> q.chan == Some(q.pc.c))
  }

  ghost predicate AllCoherent<S, L>(s: State<S, L>)
    requires |s.procs| == NPROC
  {
    forall p: Pid :: Coherent(s.procs[p])
  }

  /** What process p's code owes and knows where it is; on its way to sleep it
      has reason to. */
  ghost predicate DutyAt<S(!new), L>(cl: Client<S, L>, s: State<S, L>, p: Pid)
    requires |s.procs| == NPROC
  {
    && (if s.procs[p].pc.In? || s.procs[p].pc.Waking? then cl.fits(s.procs[p].l, s.v) else Ready(cl, s.procs[p].l))
    && (s.procs[p].pc.Sleep1? || s.procs[p].pc.Sleep2? ==> cl.blocked(s.procs[p].pc.c, s.v))
  }

  ghost predicate Dutiful<S(!new), L>(cl: Client<S, L>, s: State<S, L>)
    requires |s.procs| == NPROC
  {
    forall p: Pid :: DutyAt(cl, s, p)
  }

  /** Process h is in wakeup(c) and has yet to reach q. */
  predicate Reaching<S, L>(s: State<S, L>, h: Pid, q: Pid, c: Chan)
    requires |s.procs| == NPROC
  {
    s.procs[h].pc.Waking? && s.procs[h].pc.c == c && s.procs[h].pc.i <= q
  }

  /** Nobody waits on a channel the lock's holder has woken. */
  ghost predicate Hushed<S, L>(cl: Client<S, L>, s: State<S, L>)
    requires |s.procs| == NPROC
  {
    forall h: Pid, q: Pid, c: Chan :: s.holder == Some(h) && c in cl.quiet(s.procs[h].l) && Waits(s.procs[q], c) ==>
      Reaching(s, h, q, c)
  }

  /** Whoever waits has reason to, or is about to be woken by the lock's holder. */
  ghost predicate Justified<S, L>(cl: Client<S, L>, s: State<S, L>)
    requires |s.procs| == NPROC
  {
    forall q: Pid, c: Chan :: Waits(s.procs[q], c) && !cl.blocked(c, s.v) ==>
      s.holder.Some? && (c in cl.owes(s.procs[s.holder.value].l) || Reaching(s, s.holder.value, q, c))
  }

  ghost predicate Inv<S(!new), L>(cl: Client<S, L>, s: State<S, L>) {
    && OneHolder(s) && AllCoherent(s) && Dutiful(cl, s) && Hushed(cl, s) && Justified(cl, s) && cl.good(s.v)
  }

  lemma StepHolder<S, L>(cl: Client<S, L>, s: State<S, L>, st: Step<S, L>)
    requires OneHolder(s) && Can(cl, s, st)
    ensures OneHolder(Next(s, st))
  {
    forall p: Pid ensures |Next(s, st).procs| == NPROC &&
        (Next(s, st).holder == Some(p) <==> Holds(Next(s, st).procs[p].pc)) {
      HolderAt(cl, s, st, p);
    }
    hide Next, Can;
  }

  lemma HolderAt<S, L>(cl: Client<S, L>, s: State<S, L>, st: Step<S, L>, p: Pid)
    requires OneHolder(s) && Can(cl, s, st)
    ensures |Next(s, st).procs| == NPROC
    ensures Next(s, st).holder == Some(p) <==> Holds(Next(s, st).procs[p].pc)
  {
    assert s.holder == Some(p) <==> Holds(s.procs[p].pc);
    if !st.Outside? {
      assert s.holder == Some(st.p) <==> Holds(s.procs[st.p].pc);
    }
  }

  lemma StepCoherent<S, L>(cl: Client<S, L>, s: State<S, L>, st: Step<S, L>)
    requires OneHolder(s) && AllCoherent(s) && Can(cl, s, st)
    ensures |Next(s, st).procs| == NPROC && AllCoherent(Next(s, st))
  {
  }

  lemma StepDutiful<S(!new), L(!new)>(cl: Client<S, L>, s: State<S, L>, st: Step<S, L>)
    requires OneHolder(s) && Dutiful(cl, s) && cl.good(s.v) && Can(cl, s, st) && ClientOk(cl)
    ensures |Next(s, st).procs| == NPROC && Dutiful(cl, Next(s, st)) && cl.good(Next(s, st).v)
  {
    if st.Do? {
      ActDutiful(cl, s, st.p, st.act);
    } else {
      hide Ready;
      forall p: Pid ensures |Next(s, st).procs| == NPROC && DutyAt(cl, Next(s, st), p) {
        DutyKept(cl, s, st, p);
      }
    }
  }

  lemma DutyKept<S(!new), L(!new)>(cl: Client<S, L>, s: State<S, L>, st: Step<S, L>, p: Pid)
    requires OneHolder(s) && Dutiful(cl, s) && cl.good(s.v) && Can(cl, s, st) && ClientOk(cl) && !st.Do?
    ensures |Next(s, st).procs| == NPROC && DutyAt(cl, Next(s, st), p)
  {
    assert DutyAt(cl, s, p);
    if !st.Outside? {
      hide ClientOk;
      assert DutyAt(cl, s, st.p);
    }
  }

  lemma ActDutiful<S(!new), L(!new)>(cl: Client<S, L>, s: State<S, L>, p: Pid, a: Act<S, L>)
    requires OneHolder(s) && Dutiful(cl, s) && cl.good(s.v) && Can(cl, s, Do(p, a)) && ClientOk(cl)
    ensures |Next(s, Do(p, a)).procs| == NPROC && Dutiful(cl, Next(s, Do(p, a))) && cl.good(Next(s, Do(p, a)).v)
  {
    hide Ready;
    assert DutyAt(cl, s, p);
    assert s.holder == Some(p) && ActOk(cl, s.procs[p].l, s.v, a);
    forall q: Pid ensures DutyAt(cl, Next(s, Do(p, a)), q) {
      assert DutyAt(cl, s, q);
    }
  }

  /** While the condition lock is held by another, nobody starts to wait. */
  lemma WaitsBefore<S, L>(cl: Client<S, L>, s: State<S, L>, st: Step<S, L>, q: Pid, c: Chan)
    requires OneHolder(s) && AllCoherent(s) && Can(cl, s, st)
    ensures |Next(s, st).procs| == NPROC
    ensures Waits(Next(s, st).procs[q], c) ==> Waits(s.procs[q], c) || (st == GiveUp(q) && s.procs[q].pc == Sleep2(c))
  {
  }

  lemma StepHushed<S(!new), L(!new)>(cl: Client<S, L>, s: State<S, L>, st: Step<S, L>)
    requires Inv(cl, s) && Can(cl, s, st) && ClientOk(cl)
    ensures |Next(s, st).procs| == NPROC && Hushed(cl, Next(s, st))
  {
    var t := Next(s, st);
    forall q: Pid, c: Chan ensures |t.procs| == NPROC &&
        (Waits(t.procs[q], c) ==> Waits(s.procs[q], c) || (st == GiveUp(q) && s.procs[q].pc == Sleep2(c))) {
      WaitsBefore(cl, s, st, q, c);
    }
    hide Justified;
    if !st.Outside? {
      assert DutyAt(cl, s, st.p);
    }
  }

  ghost predicate Excused<S, L>(cl: Client<S, L>, s: State<S, L>, q: Pid, c: Chan)
    requires |s.procs| == NPROC
  {
    cl.blocked(c, s.v) ||
    (s.holder.Some? && (c in cl.owes(s.procs[s.holder.value].l) || Reaching(s, s.holder.value, q, c)))
  }

  lemma StepExcused<S(!new), L(!new)>(cl: Client<S, L>, s: State<S, L>, st: Step<S, L>, q: Pid, c: Chan)
    requires Inv(cl, s) && Can(cl, s, st) && ClientOk(cl) && |Next(s, st).procs| == NPROC
    requires Waits(Next(s, st).procs[q], c) && Waits(s.procs[q], c)
    ensures Excused(cl, Next(s, st), q, c)
  {
    assert Excused(cl, s, q, c);
    if st.Do? {
      ActExcused(cl, s, st.p, st.act, q, c);
    } else if !st.Outside? {
      assert DutyAt(cl, s, st.p);
      assert Holds(s.procs[st.p].pc) ==> s.holder == Some(st.p);
    }
  }

  lemma ActExcused<S(!new), L(!new)>(cl: Client<S, L>, s: State<S, L>, p: Pid, a: Act<S, L>, q: Pid, c: Chan)
    requires Inv(cl, s) && Can(cl, s, Do(p, a)) && ClientOk(cl)
    requires Waits(s.procs[q], c) && Excused(cl, s, q, c) && q != p
    ensures |Next(s, Do(p, a)).procs| == NPROC && Excused(cl, Next(s, Do(p, a)), q, c)
  {
    hide Justified;
    assert DutyAt(cl, s, p);
    assert s.holder == Some(p) && ActOk(cl, s.procs[p].l, s.v, a);
  }

  lemma StepJustified<S(!new), L(!new)>(cl: Client<S, L>, s: State<S, L>, st: Step<S, L>)
    requires Inv(cl, s) && Can(cl, s, st) && ClientOk(cl)
    ensures |Next(s, st).procs| == NPROC && Justified(cl, Next(s, st))
  {
    StepHolder(cl, s, st);
    var t := Next(s, st);
    forall q: Pid, c: Chan | Waits(t.procs[q], c) ensures Excused(cl, t, q, c) {
      WaitsBefore(cl, s, st, q, c);
      if Waits(s.procs[q], c) {
        StepExcused(cl, s, st, q, c);
      } else {
        assert DutyAt(cl, s, q);
      }
    }
    hide Inv, Next, Can, ClientOk;
  }

  lemma StepInv<S(!new), L(!new)>(cl: Client<S, L>, s: State<S, L>, st: Step<S, L>)
    requires Inv(cl, s) && Can(cl, s, st) && ClientOk(cl)
    ensures Inv(cl, Next(s, st))
  {
    StepHolder(cl, s, st);
    StepCoherent(cl, s, st);
    StepDutiful(cl, s, st);
    StepHushed(cl, s, st);
    StepJustified(cl, s, st);
    hide Next, Can, AllCoherent, Dutiful, Hushed, Justified, ClientOk;
  }

  // ---- runs ----

  /** A run: the state after each step, every step possible where it is taken. */
  ghost predicate Run<S, L>(cl: Client<S, L>, s: State<S, L>, steps: seq<Step<S, L>>, t: State<S, L>)
    requires |s.procs| == NPROC
    decreases |steps|
  {
    if steps == [] then t == s
    else Can(cl, s, steps[0]) && |Next(s, steps[0]).procs| == NPROC && Run(cl, Next(s, steps[0]), steps[1..], t)
  }

  lemma RunCons<S, L>(cl: Client<S, L>, s: State<S, L>, st: Step<S, L>, rest: seq<Step<S, L>>, t: State<S, L>)
    requires |s.procs| == NPROC && Can(cl, s, st) && |Next(s, st).procs| == NPROC && Run(cl, Next(s, st), rest, t)
    ensures Run(cl, s, [st] + rest, t)
  {
  }

  lemma {:induction false} RunJoin<S, L>(cl: Client<S, L>, s: State<S, L>, a: seq<Step<S, L>>, m: State<S, L>,
                                         b: seq<Step<S, L>>, t: State<S, L>)
    requires |s.procs| == NPROC && |m.procs| == NPROC && Run(cl, s, a, m) && Run(cl, m, b, t)
    ensures Run(cl, s, a + b, t)
    decreases |a|
  {
    if a == [] {
      assert a + b == b;
    } else {
      RunJoin(cl, Next(s, a[0]), a[1..], m, b, t);
      assert (a + b)[1..] == a[1..] + b && (a + b)[0] == a[0];
    }
  }

  /** Runs depend only on what the code may do. */
  lemma {:induction false} RunSame<S, L>(cl: Client<S, L>, cm: Client<S, L>, s: State<S, L>, steps: seq<Step<S, L>>,
                                         t: State<S, L>)
    requires cl.may == cm.may && cl.enters == cm.enters && cl.outside == cm.outside
    requires |s.procs| == NPROC && Run(cl, s, steps, t)
    ensures Run(cm, s, steps, t)
    decreases |steps|
  {
    if steps != [] {
      RunSame(cl, cm, Next(s, steps[0]), steps[1..], t);
    }
  }

  /** Before anyone has entered. */
  ghost predicate Start<S(!new), L>(cl: Client<S, L>, s: State<S, L>) {
    && |s.procs| == NPROC && s.holder == None && cl.good(s.v)
    && forall p: Pid :: s.procs[p].pc == Out && !s.procs[p].sleeping && !s.procs[p].locked && Ready(cl, s.procs[p].l)
  }

  lemma {:induction false} RunInv<S(!new), L(!new)>(cl: Client<S, L>, s: State<S, L>, steps: seq<Step<S, L>>,
                                                    t: State<S, L>)
    requires ClientOk(cl) && Inv(cl, s) && Run(cl, s, steps, t)
    ensures Inv(cl, t)
    decreases |steps|
  {
    if steps != [] {
      StepInv(cl, s, steps[0]);
      RunInv(cl, Next(s, steps[0]), steps[1..], t);
    }
  }

  lemma StartInv<S(!new), L(!new)>(cl: Client<S, L>, s: State<S, L>)
    requires Start(cl, s)
    ensures Inv(cl, s)
  {
  }

  /** No wakeup is lost: in every run, whenever the condition lock is free, a
      process that sleeps on a channel, or is committed to, has reason to. */
  lemma NoLostWakeup<S(!new), L(!new)>(cl: Client<S, L>, s: State<S, L>, steps: seq<Step<S, L>>, t: State<S, L>)
    requires ClientOk(cl) && Start(cl, s) && Run(cl, s, steps, t)
    ensures cl.good(t.v) && |t.procs| == NPROC
    ensures t.holder == None ==> forall q: Pid, c: Chan :: Waits(t.procs[q], c) ==> cl.blocked(c, t.v)
  {
    StartInv(cl, s);
    RunInv(cl, s, steps, t);
  }
}
