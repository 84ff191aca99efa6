/** fork, exit, reparent and wait of kernel/proc.c, over every interleaving of
    processes, wakeups and kills, with wait_lock as the condition lock. */
module ExitWait {
  import opened Common
  import opened SleepWake

  datatype Life = Unused | Used | Live | Zombie

  /** A slot of the process table. maker: the process that is setting it up in
      fork. onCpu: a zombie that has not yet switched away, and so still holds
      its own lock. */
  datatype Slot = Slot(life: Life, parent: Option<Pid>, maker: Option<Pid>, onCpu: bool)

  const EMPTY: Slot := Slot(Unused, None, None, false)

  datatype Table = Table(slots: seq<Slot>)

  const INIT: Pid := 0

  /** Idle: outside, or just in. Forked: has set the child's parent. Exit: in
      reparent, at slot i. Passing: has passed child i to init. Dying: has woken
      the parent c. Dead: is a zombie. Look: in wait's loop, at slot i. Reaped:
      has freed a child. */
  datatype Local =
    | Idle(me: Pid)
    | Forked(me: Pid)
    | Exit(me: Pid, i: nat)
    | Passing(me: Pid, i: nat)
    | Dying(me: Pid, c: Pid)
    | Dead(me: Pid, c: Pid)
    | Look(me: Pid, i: nat, kids: bool)
    | Reaped(me: Pid)

  function With(v: Table, q: Pid, s: Slot): Table
    requires |v.slots| == NPROC
  {
    v.(slots := v.slots[q := s])
  }

  predicate May(p: Pid, l: Local, v: Table, a: Act<Table, Local>) {
    |v.slots| == NPROC && l.me == p &&
    match l
    case Idle(me) =>
      v.slots[me].life.Live? &&
      (MayFork(me, v, a) || a == Update(v, Look(me, 0, false)) || (me != INIT && a == Update(v, Exit(me, 0))))
    case Forked(me) => a == Leave(Idle(me))
    case Exit(me, i) =>
      if i >= NPROC then
        v.slots[me].parent.Some? && a == Wake(v.slots[me].parent.value, Dying(me, v.slots[me].parent.value))
      else if v.slots[i].parent == Some(me) then
        a == Update(With(v, i, v.slots[i].(parent := Some(INIT))), Passing(me, i))
      else a == Update(v, Exit(me, i + 1))
    case Passing(me, i) => a == Wake(INIT, Exit(me, i + 1))
    case Dying(me, c) =>
      a == Update(With(v, me, v.slots[me].(life := Zombie, onCpu := true)), Dead(me, c))
    case Dead(me, _) => a == Leave(Idle(me))
    case Look(me, i, kids) =>
      if i >= NPROC then a == Leave(Idle(me)) || (kids && a == Wait(me, Look(me, 0, false)))
      else if v.slots[i].parent != Some(me) then a == Update(v, Look(me, i + 1, kids))
      else if v.slots[i].life.Zombie? then
        !v.slots[i].onCpu &&
        (a == Leave(Idle(me)) || a == Update(With(v, i, EMPTY), Reaped(me)))
      else a == Update(v, Look(me, i + 1, true))
    case Reaped(me) => a == Leave(Idle(me))
  }

  /** fork under wait_lock: the child's parent is set. */
  predicate MayFork(me: Pid, v: Table, a: Act<Table, Local>)
    requires |v.slots| == NPROC
  {
    a.Update? && a.l == Forked(me) &&
    exists q: Pid :: v.slots[q] == Slot(Used, None, Some(me), false) &&
                     a.v == With(v, q, v.slots[q].(parent := Some(me)))
  }

  /** Without wait_lock: a slot is taken for fork by a live process, given back
      when fork fails, made runnable once it has a parent, and a zombie switches
      away. */
  predicate Unlocked(v: Table, w: Table) {
    |v.slots| == NPROC && exists q: Pid, p: Pid :: Changes(v, w, q, p)
  }

  predicate Changes(v: Table, w: Table, q: Pid, p: Pid)
    requires |v.slots| == NPROC
  {
    || (v.slots[q].life.Unused? && v.slots[p].life.Live? && w == With(v, q, Slot(Used, None, Some(p), false)))
    || (v.slots[q] == Slot(Used, None, Some(p), false) && w == With(v, q, EMPTY))
    || (v.slots[q].life.Used? && v.slots[q].parent == Some(p) &&
        w == With(v, q, v.slots[q].(life := Live, maker := None)))
    || (v.slots[q].life.Zombie? && w == With(v, q, v.slots[q].(onCpu := false)))
  }

  /** c may sleep in wait: none of its children is a zombie. */
  predicate Blocked(c: Chan, v: Table) {
    |v.slots| == NPROC && c < NPROC && forall q: Pid :: v.slots[q].life.Zombie? ==> v.slots[q].parent != Some(c)
  }

  function Owes(l: Local): set<Chan> {
    if l.Passing? then {INIT} else {}
  }

  function Quiet(l: Local): set<Chan> {
    if l.Dying? || l.Dead? then {l.c} else {}
  }

  predicate Fits(l: Local, v: Table) {
    |v.slots| == NPROC &&
    match l
    case Exit(me, i) => me != INIT && v.slots[me].life.Live? && forall q: Pid :: q < i ==> v.slots[q].parent != Some(me)
    case Passing(me, i) => me != INIT && v.slots[me].life.Live? &&
                           forall q: Pid :: q <= i ==> v.slots[q].parent != Some(me)
    case Dying(me, c) => me != INIT && v.slots[me].life.Live? && v.slots[me].parent == Some(c) &&
                         forall q: Pid :: v.slots[q].parent != Some(me)
    case Look(me, i, _) => forall q: Pid :: q < i && v.slots[q].life.Zombie? ==> v.slots[q].parent != Some(me)
    case _ => true
  }

  function Zombies(v: Table): set<Pid>
    requires |v.slots| == NPROC
  {
    set q: Pid | v.slots[q].life.Zombie?
  }

  /** The family is sound: init lives and has no parent; everyone else that
      lives or is a zombie has a parent, and every parent lives. */
  ghost predicate Family(v: Table) {
    && |v.slots| == NPROC && v.slots[INIT].life.Live? && v.slots[INIT].parent.None?
    && (forall q: Pid :: q != INIT && (v.slots[q].life.Live? || v.slots[q].life.Zombie?) ==> v.slots[q].parent.Some?)
    && (forall q: Pid :: v.slots[q].parent.Some? ==> v.slots[v.slots[q].parent.value].life.Live?)
    && (forall q: Pid :: v.slots[q].life.Unused? ==> v.slots[q].parent.None?)
  }

  ghost function WaitClient(): Client<Table, Local> {
    Client(May, Blocked, Owes, Quiet, Unlocked, Family, Fits,
           (p: Pid, v: Table) => |v.slots| == NPROC && v.slots[p].life.Live?)
  }

  lemma ActRespects(p: Pid, l: Local, v: Table, a: Act<Table, Local>)
    requires Family(v) && Fits(l, v) && May(p, l, v, a)
    ensures ActOk(WaitClient(), l, v, a)
  {
    hide ActOk, Family, Blocked;
    FamilySize(v);
    match l
    case Idle(me) =>
      if MayFork(me, v, a) {
        ForkRespects(me, v, a);
      } else {
        SameRespects(l, v, a.l);
      }
    case Dying(me, c) => DyingRespects(me, c, v, a);
    case Look(me, i, kids) => LookRespects(me, i, kids, v, a);
    case Exit(me, i) => ExitRespects(me, i, v, a);
    case Passing(me, i) => WakeRespects(l, v, a);
    case _ => LeaveRespects(l, v, l.me);
  }

  lemma FamilySize(v: Table)
    requires Family(v)
    ensures |v.slots| == NPROC
  {
  }

  lemma SameRespects(l: Local, v: Table, l1: Local)
    requires Family(v) && Fits(l1, v) && Owes(l) == {} && Quiet(l1) == {}
    ensures ActOk(WaitClient(), l, v, Update(v, l1))
  {
  }

  lemma LeaveRespects(l: Local, v: Table, me: Pid)
    requires Family(v) && Owes(l) == {}
    ensures ActOk(WaitClient(), l, v, Leave(Idle(me)))
  {
  }

  lemma WakeRespects(l: Local, v: Table, a: Act<Table, Local>)
    requires Family(v) && a.Wake? && Fits(a.l, v) && Owes(l) <= {a.c} && Quiet(a.l) <= {a.c}
    ensures ActOk(WaitClient(), l, v, a)
  {
  }

  lemma ExitRespects(me: Pid, i: nat, v: Table, a: Act<Table, Local>)
    requires Family(v) && Fits(Exit(me, i), v) && May(me, Exit(me, i), v, a)
    ensures ActOk(WaitClient(), Exit(me, i), v, a)
  {
    hide ActOk, Family, Blocked;
    if i >= NPROC {
      WakeRespects(Exit(me, i), v, a);
    } else if v.slots[i].parent == Some(me) {
      PassRespects(me, i, v, a);
    } else {
      SameRespects(Exit(me, i), v, a.l);
    }
  }

  lemma LookRespects(me: Pid, i: nat, kids: bool, v: Table, a: Act<Table, Local>)
    requires Family(v) && Fits(Look(me, i, kids), v) && May(me, Look(me, i, kids), v, a)
    ensures ActOk(WaitClient(), Look(me, i, kids), v, a)
  {
    hide Family;
    if a.Leave? {
      LeaveRespects(Look(me, i, kids), v, me);
    } else if i >= NPROC {
      SleepRespects(me, i, kids, v);
    } else if v.slots[i].parent == Some(me) && v.slots[i].life.Zombie? {
      ReapRespects(me, i, kids, v, a);
    } else {
      SameRespects(Look(me, i, kids), v, a.l);
    }
  }

  /** wait sleeps only after a whole scan that found no zombie child. */
  lemma SleepRespects(me: Pid, i: nat, kids: bool, v: Table)
    requires Family(v) && i >= NPROC && Fits(Look(me, i, kids), v)
    ensures ActOk(WaitClient(), Look(me, i, kids), v, Wait(me, Look(me, 0, false)))
  {
  }

  lemma ForkRespects(me: Pid, v: Table, a: Act<Table, Local>)
    requires Family(v) && v.slots[me].life.Live? && MayFork(me, v, a)
    ensures ActOk(WaitClient(), Idle(me), v, a)
  {
    var q: Pid :| v.slots[q] == Slot(Used, None, Some(me), false) &&
                  a.v == With(v, q, v.slots[q].(parent := Some(me)));
  }

  /** The parent was woken before the exiting process became a zombie; since
      wait_lock is held in between, nobody went to sleep on it again. */
  lemma DyingRespects(me: Pid, c: Pid, v: Table, a: Act<Table, Local>)
    requires Family(v) && Fits(Dying(me, c), v) && May(me, Dying(me, c), v, a)
    ensures ActOk(WaitClient(), Dying(me, c), v, a)
  {
    DyingFamily(me, c, v, a.v);
    DyingBlocks(me, c, v, a.v);
    hide Family, Blocked;
  }

  lemma DyingFamily(me: Pid, c: Pid, v: Table, w: Table)
    requires Family(v) && Fits(Dying(me, c), v)
    requires w == With(v, me, v.slots[me].(life := Zombie, onCpu := true))
    ensures Family(w)
  {
  }

  lemma DyingBlocks(me: Pid, c: Pid, v: Table, w: Table)
    requires Fits(Dying(me, c), v)
    requires w == With(v, me, v.slots[me].(life := Zombie, onCpu := true))
    ensures forall d: Chan :: Blocked(d, v) && d != c ==> Blocked(d, w)
  {
  }

  lemma ReapRespects(me: Pid, i: Pid, kids: bool, v: Table, a: Act<Table, Local>)
    requires Family(v) && Fits(Look(me, i, kids), v) && May(me, Look(me, i, kids), v, a)
    requires v.slots[i].parent == Some(me) && v.slots[i].life.Zombie?
    ensures ActOk(WaitClient(), Look(me, i, kids), v, a)
  {
  }

  lemma PassRespects(me: Pid, i: Pid, v: Table, a: Act<Table, Local>)
    requires Family(v) && Fits(Exit(me, i), v) && May(me, Exit(me, i), v, a) && v.slots[i].parent == Some(me)
    ensures ActOk(WaitClient(), Exit(me, i), v, a)
  {
  }

  /** Only slot q changed, and neither its parent nor whether it is a zombie;
      whoever lived still lives. */
  ghost predicate Mild(v: Table, w: Table, q: Pid) {
    && |v.slots| == NPROC && |w.slots| == NPROC
    && (forall x: Pid :: x != q ==> w.slots[x] == v.slots[x])
    && w.slots[q].parent == v.slots[q].parent && (w.slots[q].life.Zombie? <==> v.slots[q].life.Zombie?)
    && (v.slots[q].life.Live? ==> w.slots[q].life.Live?) && (w.slots[q].life.Unused? ==> w.slots[q].parent.None?)
    && (w.slots[q].life.Live? ==> v.slots[q].life.Live? || w.slots[q].parent.Some?)
  }

  lemma ChangesMild(v: Table, w: Table, q: Pid, p: Pid)
    requires Family(v) && Changes(v, w, q, p)
    ensures Mild(v, w, q)
  {
  }

  lemma MildFamily(v: Table, w: Table, q: Pid)
    requires Family(v) && Mild(v, w, q)
    ensures Family(w) && forall c: Chan :: Blocked(c, v) ==> Blocked(c, w)
  {
  }

  lemma MildFits(v: Table, w: Table, q: Pid, l: Local)
    requires Mild(v, w, q) && Fits(l, v)
    ensures Fits(l, w)
  {
  }

  lemma UnlockedRespects(v: Table, w: Table)
    requires Family(v) && Unlocked(v, w)
    ensures Family(w) && (forall c: Chan :: Blocked(c, v) ==> Blocked(c, w))
            && forall l: Local :: Fits(l, v) ==> Fits(l, w)
  {
    hide Blocked, Fits, Mild, Changes, Zombies;
    var q: Pid, p: Pid :| Changes(v, w, q, p);
    ChangesMild(v, w, q, p);
    MildFamily(v, w, q);
    forall l: Local | Fits(l, v) ensures Fits(l, w) {
      MildFits(v, w, q, l);
    }
  }

  lemma Respects()
    ensures ClientOk(WaitClient())
  {
    hide Family, Blocked, Fits, Unlocked, May, Owes, Quiet;
    var cl := WaitClient();
    forall p: Pid, l: Local, v: Table, a: Act<Table, Local> | Family(v) && Fits(l, v) && cl.may(p, l, v, a)
      ensures ActOk(cl, l, v, a)
    {
      ActRespects(p, l, v, a);
    }
    forall v: Table, w: Table | Family(v) && cl.outside(v, w)
      ensures Family(w) && (forall c: Chan :: Blocked(c, v) ==> Blocked(c, w))
              && forall l: Local :: Fits(l, v) ==> Fits(l, w)
    {
      UnlockedRespects(v, w);
    }
  }

  /** A process sleeps in wait on its own channel. */
  ghost predicate OwnChannel(s: State<Table, Local>) {
    |s.procs| == NPROC && forall p: Pid :: s.procs[p].l.me == p && (Sleepy(s.procs[p].pc) ==> s.procs[p].pc.c == p)
  }

  predicate Sleepy(pc: Pc) {
    pc.Sleep1? || pc.Sleep2? || pc.Sleep3? || pc.Sleep4? || pc.Away?
  }

  lemma StepOwn(s: State<Table, Local>, st: Step<Table, Local>)
    requires OwnChannel(s) && Can(WaitClient(), s, st)
    ensures OwnChannel(Next(s, st))
  {
    if st.Do? {
      assert May(st.p, s.procs[st.p].l, s.v, st.act);
      MayOwn(st.p, s.procs[st.p].l, s.v, st.act);
    }
    hide May;
  }

  lemma MayOwn(p: Pid, l: Local, v: Table, a: Act<Table, Local>)
    requires May(p, l, v, a)
    ensures a.l.me == p && (a.Wait? ==> a.c == p)
  {
  }

  lemma {:induction false} RunOwn(s: State<Table, Local>, steps: seq<Step<Table, Local>>, t: State<Table, Local>)
    requires OwnChannel(s) && Run(WaitClient(), s, steps, t)
    ensures OwnChannel(t)
    decreases |steps|
  {
    if steps != [] {
      StepOwn(s, steps[0]);
      RunOwn(Next(s, steps[0]), steps[1..], t);
    }
  }

  // ---- who has exited, and who has been waited for ----

  /** Process p comes out of exit, or out of wait with child i, as its code has
      it. */
  predicate Exits(l: Local, a: Act<Table, Local>) {
    l.Dying? && a.l.Dead?
  }

  predicate Reaps(l: Local, a: Act<Table, Local>) {
    l.Look? && a.l.Reaped? && l.i < NPROC
  }

  /** z with those that exit in a step, and without the child that is waited for. */
  function Gone(s: State<Table, Local>, st: Step<Table, Local>, z: set<Pid>): set<Pid>
    requires |s.procs| == NPROC
  {
    if !st.Do? then z
    else
      var l := s.procs[st.p].l;
      if Exits(l, st.act) then z + {st.p} else if Reaps(l, st.act) then z - {l.i} else z
  }

  ghost function AllGone(s: State<Table, Local>, steps: seq<Step<Table, Local>>, z: set<Pid>): set<Pid>
    requires |s.procs| == NPROC
    decreases |steps|
  {
    if steps == [] || |Next(s, steps[0]).procs| != NPROC then z
    else AllGone(Next(s, steps[0]), steps[1..], Gone(s, steps[0], z))
  }

  /** A child that is waited for is a zombie and the caller's own; a child whose
      parent exits gets init as its parent, and no other child gets another. */
  ghost predicate Proper(s: State<Table, Local>, st: Step<Table, Local>)
    requires |s.procs| == NPROC
  {
    && |s.v.slots| == NPROC && |Next(s, st).v.slots| == NPROC
    && (st.Do? && Reaps(s.procs[st.p].l, st.act) ==>
          var slot := s.v.slots[s.procs[st.p].l.i];
          slot.life.Zombie? && slot.parent == Some(st.p))
    && forall q: Pid, x: Pid, y: Pid ::
         s.v.slots[q].parent == Some(x) && Next(s, st).v.slots[q].parent == Some(y) && x != y ==>
           y == INIT && st.Do? && st.p == x && s.procs[x].l.Exit?
  }

  ghost predicate AllProper(s: State<Table, Local>, steps: seq<Step<Table, Local>>)
    requires |s.procs| == NPROC
    decreases |steps|
  {
    steps == [] ||
    (Proper(s, steps[0]) && |Next(s, steps[0]).procs| == NPROC && AllProper(Next(s, steps[0]), steps[1..]))
  }

  lemma DoGone(s: State<Table, Local>, p: Pid, a: Act<Table, Local>)
    requires |s.procs| == NPROC && Family(s.v) && Fits(s.procs[p].l, s.v) && May(p, s.procs[p].l, s.v, a)
    ensures Proper(s, Do(p, a)) && Zombies(Next(s, Do(p, a)).v) == Gone(s, Do(p, a), Zombies(s.v))
  {
    var l, v := s.procs[p].l, s.v;
    if l.Idle? && MayFork(l.me, v, a) {
      var q: Pid :| v.slots[q] == Slot(Used, None, Some(l.me), false) &&
                    a.v == With(v, q, v.slots[q].(parent := Some(l.me)));
      assert Zombies(a.v) == Zombies(v);
    } else if Exits(l, a) {
      assert Zombies(a.v) == Zombies(v) + {p};
    } else if Reaps(l, a) {
      assert Zombies(a.v) == Zombies(v) - {l.i};
    } else if a.Update? {
      assert Zombies(a.v) == Zombies(v);
    }
  }

  lemma OutsideGone(s: State<Table, Local>, w: Table)
    requires |s.procs| == NPROC && Family(s.v) && Unlocked(s.v, w)
    ensures Proper(s, Outside(w)) && Zombies(w) == Zombies(s.v)
  {
    var q: Pid, p: Pid :| Changes(s.v, w, q, p);
    ChangesMild(s.v, w, q, p);
  }

  lemma StepGone(s: State<Table, Local>, st: Step<Table, Local>)
    requires Inv(WaitClient(), s) && Can(WaitClient(), s, st)
    ensures Proper(s, st) && Zombies(Next(s, st).v) == Gone(s, st, Zombies(s.v))
  {
    hide Family, Fits, May, Unlocked;
    FamilySize(s.v);
    match st
    case Do(p, a) =>
      assert DutyAt(WaitClient(), s, p);
      DoGone(s, p, a);
    case Outside(w) => OutsideGone(s, w);
    case _ =>
      assert Next(s, st).v == s.v;
  }

  lemma {:induction false} RunGone(s: State<Table, Local>, steps: seq<Step<Table, Local>>, t: State<Table, Local>)
    requires Inv(WaitClient(), s) && Run(WaitClient(), s, steps, t)
    ensures |s.v.slots| == NPROC && |t.v.slots| == NPROC
    ensures AllProper(s, steps) && Zombies(t.v) == AllGone(s, steps, Zombies(s.v))
    decreases |steps|
  {
    hide Proper, Gone, Can, Next, Zombies;
    FamilySize(s.v);
    if steps != [] {
      Respects();
      StepGone(s, steps[0]);
      StepInv(WaitClient(), s, steps[0]);
      RunGone(Next(s, steps[0]), steps[1..], t);
    }
  }

  /** In every run of forks, exits and waits: every parent lives, every zombie
      has one, the zombies are exactly those that have exited and have not been
      waited for, by their parents, since; orphans go to init; and whenever
      wait_lock is free no process asleep in wait, or about to be, has a zombie
      child. */
  lemma NoChildLost(s: State<Table, Local>, steps: seq<Step<Table, Local>>, t: State<Table, Local>)
    requires Start(WaitClient(), s) && OwnChannel(s) && Run(WaitClient(), s, steps, t)
    ensures |t.procs| == NPROC && |s.v.slots| == NPROC && |t.v.slots| == NPROC
    ensures AllProper(s, steps) && Zombies(t.v) == AllGone(s, steps, Zombies(s.v))
    ensures forall q: Pid :: t.v.slots[q].parent.Some? ==> t.v.slots[t.v.slots[q].parent.value].life.Live?
    ensures forall q: Pid :: t.v.slots[q].life.Zombie? ==> t.v.slots[q].parent.Some?
    ensures t.holder == None ==> forall p: Pid, q: Pid :: Waits(t.procs[p], p) && t.v.slots[q].life.Zombie? ==>
              t.v.slots[q].parent != Some(p)
    ensures forall p: Pid, c: Chan :: Waits(t.procs[p], c) ==> c == p
  {
    Respects();
    NoLostWakeup(WaitClient(), s, steps, t);
    RunOwn(s, steps, t);
    StartInv(WaitClient(), s);
    RunInv(WaitClient(), s, steps, t);
    RunGone(s, steps, t);
    if t.holder == None {
      forall p: Pid | Waits(t.procs[p], p) ensures Blocked(p, t.v) {
        assert WaitClient().blocked(p, t.v) == Blocked(p, t.v);
      }
    }
    OwnWaits(t);
  }

  lemma OwnWaits(t: State<Table, Local>)
    requires OwnChannel(t) && AllCoherent(t)
    ensures forall p: Pid, c: Chan :: Waits(t.procs[p], c) ==> c == p
  {
  }
}
