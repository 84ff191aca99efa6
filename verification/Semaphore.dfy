/** sem_p and sem_v of kernel/sem.c on one semaphore, over every interleaving of
    processes, wakeups and kills. */
module Semaphore {
  import opened Common
  import opened SleepWake

  datatype Sem = Sem(value: int)

  /** Where a process is inside sem_p or sem_v, once it holds the semaphore's
      lock; outside, which of the two it will call next. */
  datatype Local = CallP | Taken | CallV | Raised | Woken

  const SEM: Chan := 1                  // the semaphore's address

  predicate May(p: Pid, l: Local, v: Sem, a: Act<Sem, Local>) {
    match l
    case CallP => if v.value <= 0 then a == Wait(SEM, CallP) else a == Update(v.(value := v.value - 1), Taken)
    case CallV => a == Update(v.(value := v.value + 1), Raised)
    case Raised => a == Wake(SEM, Woken)
    case Taken => a == Leave(CallP) || a == Leave(CallV)
    case Woken => a == Leave(CallP) || a == Leave(CallV)
  }

  predicate Blocked(c: Chan, v: Sem) {
    c == SEM && v.value <= 0
  }

  function Owes(l: Local): set<Chan> {
    if l.Raised? then {SEM} else {}
  }

  const CLIENT: Client<Sem, Local> :=
    Client(May, Blocked, Owes, (l: Local) => {}, (v: Sem, w: Sem) => false, (v: Sem) => true,
           (l: Local, v: Sem) => true, (p: Pid, v: Sem) => true)

  lemma Respects()
    ensures ClientOk(CLIENT)
  {
  }

  /** How often processes have come through sem_p, or through sem_v, by where they
      are in the code. */
  function Passed(s: State<Sem, Local>, steps: seq<Step<Sem, Local>>, l: Local): nat
    requires |s.procs| == NPROC
    decreases |steps|
  {
    if steps == [] || |Next(s, steps[0]).procs| != NPROC then 0
    else (if steps[0].Do? && Ends(s.procs[steps[0].p].l, steps[0].act.l, l) then 1 else 0)
         + Passed(Next(s, steps[0]), steps[1..], l)
  }

  /** A call of sem_p, or of sem_v, gets past its change of the counter. */
  predicate Ends(before: Local, after: Local, call: Local) {
    before == call && ((call.CallP? && after.Taken?) || (call.CallV? && after.Raised?))
  }

  lemma {:induction false} Counted(s: State<Sem, Local>, steps: seq<Step<Sem, Local>>, t: State<Sem, Local>)
    requires |s.procs| == NPROC && Run(CLIENT, s, steps, t)
    ensures t.v.value == s.v.value + Passed(s, steps, CallV) - Passed(s, steps, CallP)
    ensures s.v.value >= 0 ==> t.v.value >= 0
    decreases |steps|
  {
    if steps != [] {
      Counted(Next(s, steps[0]), steps[1..], t);
    }
  }

  /** In every run: the value is what it was plus the V operations minus the P
      operations that processes have come through, never negative if it did not
      start so; and whenever the lock is free and the value is positive, nobody is
      asleep on the semaphore or about to be. */
  lemma SemaphoreSafe(s: State<Sem, Local>, steps: seq<Step<Sem, Local>>, t: State<Sem, Local>)
    requires Start(CLIENT, s) && Run(CLIENT, s, steps, t)
    ensures t.v.value == s.v.value + Passed(s, steps, CallV) - Passed(s, steps, CallP)
    ensures s.v.value >= 0 ==> t.v.value >= 0
    ensures |t.procs| == NPROC
    ensures t.holder == None && t.v.value > 0 ==> forall q: Pid :: !Waits(t.procs[q], SEM)
  {
    Respects();
    Counted(s, steps, t);
    NoLostWakeup(CLIENT, s, steps, t);
    if t.holder == None && t.v.value > 0 {
      forall q: Pid ensures !Waits(t.procs[q], SEM) {
        assert !CLIENT.blocked(SEM, t.v);
      }
    }
  }
}
