/** acquiresleep and releasesleep of kernel/sleeplock.c on one lock, over every
    interleaving of processes, wakeups and kills. */
module SleepLock {
  import opened Common
  import opened SleepWake

  datatype Lock = Lock(locked: bool, pid: nat)

  /** Seek: in acquiresleep. Got: has set locked. Own: has returned with the
      lock. Cleared and Woken: in releasesleep. */
  datatype Local = Seek | Got | Own | Cleared | Woken

  const LK: Chan := 1                   // the sleep-lock's address

  function PidOf(p: Pid): nat {
    p + 1
  }

  /** Only a process that acquired the lock releases it. */
  predicate May(p: Pid, l: Local, v: Lock, a: Act<Lock, Local>) {
    match l
    case Seek => if v.locked then a == Wait(LK, Seek) else a == Update(Lock(true, PidOf(p)), Got)
    case Got => a == Leave(Own)
    case Own => a == Update(Lock(false, 0), Cleared)
    case Cleared => a == Wake(LK, Woken)
    case Woken => a == Leave(Seek)
  }

  predicate Blocked(c: Chan, v: Lock) {
    c == LK && v.locked
  }

  function Owes(l: Local): set<Chan> {
    if l.Cleared? then {LK} else {}
  }

  const CLIENT: Client<Lock, Local> :=
    Client(May, Blocked, Owes, (l: Local) => {}, (v: Lock, w: Lock) => false, (v: Lock) => true,
           (l: Local, v: Lock) => true, (p: Pid, v: Lock) => true)

  lemma Respects()
    ensures ClientOk(CLIENT)
  {
  }

  predicate Has(l: Local) {
    l.Got? || l.Own?
  }

  /** Whoever has the lock is recorded in it. */
  ghost predicate Owner(s: State<Lock, Local>) {
    |s.procs| == NPROC && forall p: Pid :: Has(s.procs[p].l) ==> s.v == Lock(true, PidOf(p))
  }

  ghost predicate LockedByOne(s: State<Lock, Local>)
    requires |s.procs| == NPROC
  {
    s.v.locked ==> exists p: Pid :: Has(s.procs[p].l)
  }

  lemma StepOwner(s: State<Lock, Local>, st: Step<Lock, Local>)
    requires Inv(CLIENT, s) && Owner(s) && Can(CLIENT, s, st)
    ensures Owner(Next(s, st))
  {
  }

  lemma StepLocked(s: State<Lock, Local>, st: Step<Lock, Local>)
    requires Owner(s) && Can(CLIENT, s, st) && LockedByOne(s)
    ensures |Next(s, st).procs| == NPROC && LockedByOne(Next(s, st))
  {
    var t := Next(s, st);
    if s.v.locked && t.v.locked {
      var p: Pid :| Has(s.procs[p].l);
      assert Has(t.procs[p].l);
    } else if t.v.locked {
      assert Has(t.procs[st.p].l);
    }
  }

  lemma {:induction false} RunOwner(s: State<Lock, Local>, steps: seq<Step<Lock, Local>>, t: State<Lock, Local>)
    requires Inv(CLIENT, s) && Owner(s) && Run(CLIENT, s, steps, t)
    ensures Owner(t) && (LockedByOne(s) ==> LockedByOne(t))
    decreases |steps|
  {
    if steps != [] {
      Respects();
      StepInv(CLIENT, s, steps[0]);
      StepOwner(s, steps[0]);
      if LockedByOne(s) {
        StepLocked(s, steps[0]);
      }
      RunOwner(Next(s, steps[0]), steps[1..], t);
    }
  }

  /** In every run: at most one process has the lock, a process that has it is
      the one recorded, the lock is locked exactly while a process has it if it
      was not to begin with, and whenever the inner lock is free nobody is asleep
      on an unlocked sleep-lock or about to be. */
  lemma SleepLockSafe(s: State<Lock, Local>, steps: seq<Step<Lock, Local>>, t: State<Lock, Local>)
    requires Start(CLIENT, s) && Run(CLIENT, s, steps, t) && forall p: Pid :: s.procs[p].l == Seek
    ensures |t.procs| == NPROC
    ensures forall p: Pid, q: Pid :: t.procs[p].l.Own? && t.procs[q].l.Own? ==> p == q
    ensures forall p: Pid :: t.procs[p].l.Own? ==> t.v == Lock(true, PidOf(p))
    ensures !s.v.locked ==> (t.v.locked <==> exists p: Pid :: Has(t.procs[p].l))
    ensures t.holder == None && !t.v.locked ==> forall q: Pid :: !Waits(t.procs[q], LK)
  {
    Respects();
    NoLostWakeup(CLIENT, s, steps, t);
    RunOwner(s, steps, t);
    if t.holder == None && !t.v.locked {
      forall q: Pid ensures !Waits(t.procs[q], LK) {
        assert !CLIENT.blocked(LK, t.v);
      }
    }
  }
}
