/** pipewrite, piperead and pipeclose of kernel/pipe.c on one pipe, over every
    interleaving of readers, writers, wakeups and kills, with the two counters
    wrapping around at 32 bits. */
module Pipe {
  import opened Common
  import opened SleepWake

  const PIPESIZE: nat := 512
  const WRAP: nat := 0x1_0000_0000

  const NREAD: Chan := 1                // &pi->nread, where readers sleep
  const NWRITE: Chan := 2               // &pi->nwrite, where writers sleep

  /** The pipe, with every byte ever accepted and delivered. */
  datatype Pipe = Pipe(data: seq<nat>, nread: nat, nwrite: nat, readopen: bool, writeopen: bool,
                       accepted: seq<nat>, delivered: seq<nat>)

  /** Write: in pipewrite's loop, i bytes done; untold says some were added that
      no reader was told of. Stuck: found the pipe full and told the readers.
      Written: out of the loop. Read: in piperead's first loop. Copy: in its
      second, with the bytes got so far. Copied: out of it. Close: in pipeclose.
      Shut: has cleared its end. Done: about to release the lock. */
  datatype Local =
    | Write(src: seq<nat>, i: nat, untold: bool)
    | Stuck(src: seq<nat>, i: nat)
    | Written(untold: bool)
    | Read(n: nat)
    | Copy(n: nat, got: seq<nat>)
    | Copied(some: bool)
    | Close(writable: bool)
    | Shut(c: Chan)
    | Done

  predicate Empty(v: Pipe) {
    v.nread == v.nwrite
  }

  predicate Full(v: Pipe) {
    v.nwrite == (v.nread + PIPESIZE) % WRAP
  }

  function Put(v: Pipe, b: nat): Pipe
    requires |v.data| == PIPESIZE
  {
    v.(data := v.data[v.nwrite % PIPESIZE := b], nwrite := (v.nwrite + 1) % WRAP, accepted := v.accepted + [b])
  }

  function Get(v: Pipe): Pipe
    requires |v.data| == PIPESIZE
  {
    v.(nread := (v.nread + 1) % WRAP, delivered := v.delivered + [v.data[v.nread % PIPESIZE]])
  }

  /** What a process starts next: a write, a read or a close. */
  predicate Fresh(l: Local) {
    (l.Write? && l.i == 0 && !l.untold) || l.Read? || l.Close?
  }

  predicate Leaves(a: Act<Pipe, Local>) {
    a.Leave? && Fresh(a.l)
  }

  /** lossy: a killed writer may return although it added bytes that no reader
      was told of, as the code does. */
  predicate May(lossy: bool, l: Local, v: Pipe, a: Act<Pipe, Local>) {
    |v.data| == PIPESIZE &&
    match l
    case Write(src, i, untold) =>
      if i >= |src| then a == Update(v, Written(untold))
      else if !v.readopen then Leaves(a)
      else
        || (Leaves(a) && (lossy || !untold))                      // killed
        || (Full(v) && a == Wake(NREAD, Stuck(src, i)))
        || (!Full(v) && (a == Update(Put(v, src[i]), Write(src, i + 1, true)) || a == Update(v, Written(untold))))
    case Stuck(src, i) => a == Wait(NWRITE, Write(src, i, false))
    case Written(_) => a == Wake(NREAD, Done)
    case Read(n) =>
      if Empty(v) && v.writeopen then Leaves(a) || a == Wait(NREAD, Read(n))
      else a == Update(v, Copy(n, []))
    case Copy(n, got) =>
      if |got| >= n || Empty(v) then a == Update(v, Copied(got != []))
      else
        || a == Update(Get(v), Copy(n, got + [v.data[v.nread % PIPESIZE]]))
        || a == Update(v, Copied(got != []))
    case Copied(_) => a == Wake(NWRITE, Done)
    case Close(writable) =>
      if writable then a == Update(v.(writeopen := false), Shut(NREAD))
      else a == Update(v.(readopen := false), Shut(NWRITE))
    case Shut(c) => a == Wake(c, Done)
    case Done => Leaves(a)
  }

  /** Why a process may sleep: a reader, while the pipe is empty and may still
      be written to; a writer, while it is full and may still be read. */
  predicate Blocked(c: Chan, v: Pipe) {
    (c == NREAD && Empty(v) && v.writeopen) || (c == NWRITE && Full(v) && v.readopen)
  }

  function Owes(l: Local): set<Chan> {
    match l
    case Write(_, _, untold) => if untold then {NREAD} else {}
    case Written(untold) => if untold then {NREAD} else {}
    case Copy(_, got) => if got != [] then {NWRITE} else {}
    case Copied(some) => if some then {NWRITE} else {}
    case Shut(c) => {c}
    case _ => {}
  }

  predicate Fits(l: Local, v: Pipe) {
    (l.Stuck? ==> Full(v) && v.readopen) && (l.Write? && l.untold ==> !Empty(v) && v.readopen)
  }

  /** First in, first out: what was delivered is the beginning of what was
      accepted, the rest is in the buffer, and it fits. */
  predicate Fifo(v: Pipe) {
    && |v.data| == PIPESIZE
    && v.delivered <= v.accepted && |v.accepted| <= |v.delivered| + PIPESIZE
    && v.nread == |v.delivered| % WRAP && v.nwrite == |v.accepted| % WRAP
    && forall k :: |v.delivered| <= k < |v.accepted| ==> v.data[k % PIPESIZE] == v.accepted[k]
  }

  /** Wrapping counters still tell how many bytes are waiting. */
  lemma Counters(v: Pipe)
    requires Fifo(v)
    ensures Empty(v) <==> |v.accepted| == |v.delivered|
    ensures Full(v) <==> |v.accepted| == |v.delivered| + PIPESIZE
    ensures v.nread % PIPESIZE == |v.delivered| % PIPESIZE && v.nwrite % PIPESIZE == |v.accepted| % PIPESIZE
    ensures (v.nwrite - v.nread) % WRAP == |v.accepted| - |v.delivered|
  {
    Wrapped(|v.delivered|);
    Wrapped(|v.accepted|);
    Apart(|v.delivered|, |v.accepted|);
  }

  lemma Wrapped(x: nat)
    ensures x % WRAP % PIPESIZE == x % PIPESIZE
  {
  }

  lemma Apart(d: nat, a: nat)
    requires d <= a <= d + PIPESIZE
    ensures d % WRAP == a % WRAP <==> a == d
    ensures a % WRAP == (d % WRAP + PIPESIZE) % WRAP <==> a == d + PIPESIZE
    ensures (a % WRAP - d % WRAP) % WRAP == a - d
  {
  }

  lemma PutFifo(v: Pipe, b: nat)
    requires Fifo(v) && !Full(v)
    ensures Fifo(Put(v, b)) && !Empty(Put(v, b))
  {
    Counters(v);
    OneMore(|v.accepted|);
    Buffered(v.data, v.accepted, |v.delivered|, b);
    Apart(|v.delivered|, |v.accepted| + 1);
  }

  lemma OneMore(x: nat)
    ensures (x % WRAP + 1) % WRAP == (x + 1) % WRAP
  {
  }

  lemma Buffered(data: seq<nat>, acc: seq<nat>, d: nat, b: nat)
    requires |data| == PIPESIZE && d <= |acc| < d + PIPESIZE
    requires forall k :: d <= k < |acc| ==> data[k % PIPESIZE] == acc[k]
    ensures forall k :: d <= k < |acc| + 1 ==> data[|acc| % PIPESIZE := b][k % PIPESIZE] == (acc + [b])[k]
  {
  }

  lemma GetFifo(v: Pipe)
    requires Fifo(v) && !Empty(v)
    ensures Fifo(Get(v)) && !Full(Get(v))
  {
    Counters(v);
    OneMore(|v.delivered|);
    assert v.data[v.nread % PIPESIZE] == v.accepted[|v.delivered|];
    Apart(|v.delivered| + 1, |v.accepted|);
  }

  function PipeClient(lossy: bool): Client<Pipe, Local> {
    Client((p: Pid, l: Local, v: Pipe, a: Act<Pipe, Local>) => May(lossy, l, v, a), Blocked, Owes,
           (l: Local) => {}, (v: Pipe, w: Pipe) => false, Fifo, Fits,
           (p: Pid, v: Pipe) => true)
  }

  /** The code itself, with no claim about when its processes may sleep. */
  function Unjudged(): Client<Pipe, Local> {
    PipeClient(true).(blocked := (c: Chan, v: Pipe) => true)
  }

  /** With no claim about sleepers the code as it stands is held to the order of
      the bytes alone; where killed writers do not leave bytes untold of, it is
      held to Blocked as well. */
  function Judged(lossy: bool): Client<Pipe, Local> {
    if lossy then Unjudged() else PipeClient(false)
  }

  lemma ActRespects(lossy: bool, l: Local, v: Pipe, a: Act<Pipe, Local>)
    requires Fifo(v) && Fits(l, v) && May(lossy, l, v, a)
    ensures ActOk(Judged(lossy), l, v, a)
  {
    hide Fifo;
    FifoSize(v);
    match l
    case Write(src, i, untold) => WriteRespects(lossy, l, v, a);
    case Copy(n, got) => CopyRespects(lossy, l, v, a);
    case _ =>
  }

  lemma WriteRespects(lossy: bool, l: Local, v: Pipe, a: Act<Pipe, Local>)
    requires Fifo(v) && l.Write? && Fits(l, v) && May(lossy, l, v, a)
    ensures ActOk(Judged(lossy), l, v, a)
  {
    hide Fifo;
    FifoSize(v);
    if l.i < |l.src| && !Full(v) {
      PutFifo(v, l.src[l.i]);
    }
  }

  lemma CopyRespects(lossy: bool, l: Local, v: Pipe, a: Act<Pipe, Local>)
    requires Fifo(v) && l.Copy? && May(lossy, l, v, a)
    ensures ActOk(Judged(lossy), l, v, a)
  {
    hide Fifo;
    FifoSize(v);
    if !Empty(v) {
      GetFifo(v);
    }
  }

  lemma FifoSize(v: Pipe)
    requires Fifo(v)
    ensures |v.data| == PIPESIZE && Fifo(v.(writeopen := false)) && Fifo(v.(readopen := false))
  {
  }

  lemma Respects(lossy: bool)
    ensures ClientOk(Judged(lossy))
  {
    forall p: Pid, l: Local, v: Pipe, a: Act<Pipe, Local> |
        Fifo(v) && Fits(l, v) && Judged(lossy).may(p, l, v, a)
      ensures ActOk(Judged(lossy), l, v, a)
    {
      ActRespects(lossy, l, v, a);
    }
  }

  /** In every run: the bytes delivered are the first of those accepted, and at
      most PIPESIZE are waiting, as many as the wrapped counters say. */
  lemma PipeOrdered(s: State<Pipe, Local>, steps: seq<Step<Pipe, Local>>, t: State<Pipe, Local>)
    requires Start(PipeClient(true), s) && Run(PipeClient(true), s, steps, t)
    ensures t.v.delivered <= t.v.accepted
    ensures (t.v.nwrite - t.v.nread) % WRAP == |t.v.accepted| - |t.v.delivered| <= PIPESIZE
  {
    Respects(true);
    RunSame(PipeClient(true), Unjudged(), s, steps, t);
    NoLostWakeup(Unjudged(), s, steps, t);
    Counters(t.v);
  }

  // ---- who may be asleep ----

  /** While the lock is free a sleeping reader means that the pipe is empty and
      may still be written to, a sleeping writer that it is full and may still be
      read. */
  ghost predicate Sound(t: State<Pipe, Local>)
    requires |t.procs| == NPROC
  {
    t.holder == None ==> forall q: Pid ::
      (Waits(t.procs[q], NREAD) ==> |t.v.accepted| == |t.v.delivered| && t.v.writeopen) &&
      (Waits(t.procs[q], NWRITE) ==> |t.v.accepted| == |t.v.delivered| + PIPESIZE && t.v.readopen)
  }

  /** A writer that was killed returns although it added bytes since it last
      woke the readers. */
  predicate Deserts(s: State<Pipe, Local>, st: Step<Pipe, Local>)
    requires |s.procs| == NPROC
  {
    st.Do? && st.act.Leave? && s.procs[st.p].l.Write? && s.procs[st.p].l.untold
  }

  /** It does so while a reader sleeps. */
  ghost predicate Strands(s: State<Pipe, Local>, st: Step<Pipe, Local>)
    requires |s.procs| == NPROC
  {
    Deserts(s, st) && exists q: Pid :: Waits(s.procs[q], NREAD)
  }

  ghost predicate AllSound(s: State<Pipe, Local>, steps: seq<Step<Pipe, Local>>)
    requires |s.procs| == NPROC
    decreases |steps|
  {
    Sound(s) && (steps != [] ==> |Next(s, steps[0]).procs| == NPROC && AllSound(Next(s, steps[0]), steps[1..]))
  }

  ghost predicate NoneStrands(s: State<Pipe, Local>, steps: seq<Step<Pipe, Local>>)
    requires |s.procs| == NPROC
    decreases |steps|
  {
    steps != [] ==>
      !Strands(s, steps[0]) && |Next(s, steps[0]).procs| == NPROC && NoneStrands(Next(s, steps[0]), steps[1..])
  }

  lemma InvSound(s: State<Pipe, Local>)
    requires Inv(PipeClient(false), s)
    ensures Sound(s)
  {
    Counters(s.v);
    if s.holder == None {
      forall q: Pid ensures
          (Waits(s.procs[q], NREAD) ==> Blocked(NREAD, s.v)) && (Waits(s.procs[q], NWRITE) ==> Blocked(NWRITE, s.v)) {
        assert PipeClient(false).blocked(NREAD, s.v) == Blocked(NREAD, s.v);
        assert PipeClient(false).blocked(NWRITE, s.v) == Blocked(NWRITE, s.v);
      }
    }
  }

  /** Nobody is harmed when no reader sleeps. */
  lemma DesertInv(s: State<Pipe, Local>, st: Step<Pipe, Local>)
    requires Inv(PipeClient(false), s) && Can(PipeClient(true), s, st) && Deserts(s, st) && !Strands(s, st)
    ensures Inv(PipeClient(false), Next(s, st))
  {
    StepHolder(PipeClient(true), s, st);
    StepCoherent(PipeClient(true), s, st);
    assert DutyAt(PipeClient(false), s, st.p);
    forall p: Pid ensures DutyAt(PipeClient(false), Next(s, st), p) {
      assert DutyAt(PipeClient(false), s, p);
    }
  }

  lemma StepSound(s: State<Pipe, Local>, st: Step<Pipe, Local>)
    requires Inv(PipeClient(false), s) && Can(PipeClient(true), s, st) && !Strands(s, st)
    ensures Inv(PipeClient(false), Next(s, st))
  {
    if Deserts(s, st) {
      DesertInv(s, st);
    } else {
      Respects(false);
      StepInv(PipeClient(false), s, st);
    }
  }

  /** The reader sleeps on although bytes are waiting. */
  lemma StrandedUnsound(s: State<Pipe, Local>, st: Step<Pipe, Local>)
    requires Inv(PipeClient(false), s) && Can(PipeClient(true), s, st) && Strands(s, st)
    ensures |Next(s, st).procs| == NPROC && !Sound(Next(s, st))
  {
    assert DutyAt(PipeClient(false), s, st.p);
    Counters(s.v);
    var q: Pid :| Waits(s.procs[q], NREAD);
    assert Waits(Next(s, st).procs[q], NREAD);
  }

  lemma {:induction false} SoundExactly(s: State<Pipe, Local>, steps: seq<Step<Pipe, Local>>, t: State<Pipe, Local>)
    requires Inv(PipeClient(false), s) && Run(PipeClient(true), s, steps, t)
    ensures AllSound(s, steps) <==> NoneStrands(s, steps)
    decreases |steps|
  {
    InvSound(s);
    if steps != [] {
      if Strands(s, steps[0]) {
        StrandedUnsound(s, steps[0]);
      } else {
        StepSound(s, steps[0]);
        SoundExactly(Next(s, steps[0]), steps[1..], t);
      }
    }
  }

  /** In every run no wakeup is lost at any point if, and only if, no killed
      writer returns with bytes untold of while a reader sleeps. */
  lemma PipeExact(s: State<Pipe, Local>, steps: seq<Step<Pipe, Local>>, t: State<Pipe, Local>)
    requires Start(PipeClient(true), s) && Run(PipeClient(true), s, steps, t)
    ensures AllSound(s, steps) <==> NoneStrands(s, steps)
  {
    StartInv(PipeClient(false), s);
    SoundExactly(s, steps, t);
  }

  /** As the code stands a killed writer does return without telling readers:
      process 0 reads an empty pipe and sleeps, process 1 adds one of two bytes
      and is killed, and process 0 stays asleep with a byte waiting. */
  lemma KilledWriterLosesWakeup()
    returns (s: State<Pipe, Local>, steps: seq<Step<Pipe, Local>>, t: State<Pipe, Local>)
    ensures Start(PipeClient(true), s) && Run(PipeClient(true), s, steps, t)
    ensures |t.procs| == NPROC && t.holder == None && Waits(t.procs[0], NREAD)
    ensures |t.v.accepted| > |t.v.delivered| && t.v.readopen && t.v.writeopen
  {
    var cl := PipeClient(true);
    var v := Pipe(seq(PIPESIZE, _ => 0), 0, 0, true, true, [], []);
    var w := Write([7, 8], 0, false);
    s := State(v, None, seq(NPROC, p => Proc(Out, false, None, false, if p == 0 then Read(1) else w)));
    assert Start(cl, s);
    var s1, asleep := ReaderSleeps(s);
    hide Run, Start;
    var killed;
    t, killed := WriterKilled(s1);
    steps := asleep + killed;
    RunJoin(cl, s, asleep, s1, killed, t);
  }

  lemma WriterKilled(s: State<Pipe, Local>) returns (t: State<Pipe, Local>, steps: seq<Step<Pipe, Local>>)
    requires |s.procs| == NPROC && s.holder == None
    requires s.procs[1] == Proc(Out, false, None, false, Write([7, 8], 0, false))
    requires |s.v.data| == PIPESIZE && !Full(s.v) && s.v.readopen
    ensures Run(PipeClient(true), s, steps, t)
    ensures t == s.(v := Put(s.v, 7), procs := s.procs[1 := Proc(Out, false, None, false, Read(0))])
  {
    var cl := PipeClient(true);
    var b1, b2, b3 := Enter(1), Do(1, Update(Put(s.v, 7), Write([7, 8], 1, true))), Do(1, Leave(Read(0)));
    var s1 := Next(s, b1);
    var s2 := Next(s1, b2);
    t := Next(s2, b3);
    assert Run(cl, t, [], t);
    RunCons(cl, s2, b3, [], t);
    RunCons(cl, s1, b2, [b3], t);
    RunCons(cl, s, b1, [b2] + [b3], t);
    steps := [b1] + ([b2] + [b3]);
  }

  lemma ReaderSleeps(s: State<Pipe, Local>) returns (t: State<Pipe, Local>, steps: seq<Step<Pipe, Local>>)
    requires |s.procs| == NPROC && s.holder == None && s.procs[0] == Proc(Out, false, None, false, Read(1))
    requires |s.v.data| == PIPESIZE && Empty(s.v) && s.v.writeopen
    ensures Run(PipeClient(true), s, steps, t)
    ensures t == s.(procs := s.procs[0 := Proc(Sleep4(NREAD), true, Some(NREAD), true, Read(1))])
  {
    var cl := PipeClient(true);
    var a1, a2, a3, a4, a5 := Enter(0), Do(0, Wait(NREAD, Read(1))), TakeOwn(0), GiveUp(0), FallAsleep(0);
    var s1 := Next(s, a1);
    var s2 := Next(s1, a2);
    var s3 := Next(s2, a3);
    var s4 := Next(s3, a4);
    t := Next(s4, a5);
    assert Run(cl, t, [], t);
    RunCons(cl, s4, a5, [], t);
    RunCons(cl, s3, a4, [a5], t);
    RunCons(cl, s2, a3, [a4] + [a5], t);
    RunCons(cl, s1, a2, [a3] + ([a4] + [a5]), t);
    RunCons(cl, s, a1, [a2] + ([a3] + ([a4] + [a5])), t);
    steps := [a1] + ([a2] + ([a3] + ([a4] + [a5])));
  }
}
