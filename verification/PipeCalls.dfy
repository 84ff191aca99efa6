/** What the callers of pipewrite and piperead in kernel/pipe.c get: the bytes
    read are the bytes of the writers' buffers. Calls are followed by what their
    own loops keep, the buffer and the count, and not by what the pipe does. */
module PipeCalls {
  import opened Common
  import opened SleepWake
  import opened Pipe

  /** A call of pipewrite with its buffer, or of piperead with what it has got,
      and how many bytes it has done. */
  datatype Call = Call(p: Pid, buf: seq<nat>, n: nat)

  /** All calls so far, and which of them moved each byte; writing[p] and reading[p]
      are process p's latest; closed has true if pipeclose was called for the
      writers' end, and false if for the readers'. */
  datatype Story = Story(written: seq<Call>, puts: seq<nat>, writing: seq<nat>,
                         taken: seq<Call>, gets: seq<nat>, reading: seq<nat>,
                         closed: set<bool>)

  /** Every process has a call to start with, empty if it does something else. */
  function Opening(s: State<Pipe, Local>): (h: Story)
    requires |s.procs| == NPROC
    ensures |h.writing| == NPROC && |h.reading| == NPROC
  {
    Story(seq(NPROC, p requires 0 <= p < NPROC => Call(p, Source(s.procs[p].l), 0)), [], seq(NPROC, p => p),
          seq(NPROC, p requires 0 <= p < NPROC => Call(p, [], 0)), [], seq(NPROC, p => p), {})
  }

  function Source(l: Local): seq<nat> {
    if l.Write? then l.src else []
  }

  /** Process p, at l in its code, does a: it starts another call, or its loop has
      done one more byte. */
  function Noted(h: Story, p: Pid, l: Local, a: Act<Pipe, Local>): (r: Story)
    requires |h.writing| == NPROC && |h.reading| == NPROC
    ensures |r.writing| == NPROC && |r.reading| == NPROC
  {
    if a.Leave? && a.l.Write? then
      h.(written := h.written + [Call(p, a.l.src, 0)], writing := h.writing[p := |h.written|])
    else if a.Leave? && a.l.Read? then
      h.(taken := h.taken + [Call(p, [], 0)], reading := h.reading[p := |h.taken|])
    else if a.Update? && l.Write? && a.l.Write? && h.writing[p] < |h.written| then
      h.(written := h.written[h.writing[p] := Call(p, a.l.src, a.l.i)], puts := h.puts + [h.writing[p]])
    else if a.Update? && l.Copy? && a.l.Copy? && h.reading[p] < |h.taken| then
      h.(taken := h.taken[h.reading[p] := Call(p, a.l.got, |a.l.got|)], gets := h.gets + [h.reading[p]])
    else if a.Update? && l.Close? then h.(closed := h.closed + {l.writable})
    else h
  }

  ghost function Told(h: Story, s: State<Pipe, Local>, steps: seq<Step<Pipe, Local>>): (r: Story)
    requires |h.writing| == NPROC && |h.reading| == NPROC && |s.procs| == NPROC
    ensures |r.writing| == NPROC && |r.reading| == NPROC
    decreases |steps|
  {
    if steps == [] || |Next(s, steps[0]).procs| != NPROC then h
    else
      var h1 := if steps[0].Do? then Noted(h, steps[0].p, s.procs[steps[0].p].l, steps[0].act) else h;
      Told(h1, Next(s, steps[0]), steps[1..])
  }

  // ---- interleavings ----

  /** The bytes that call c moved. */
  function Part(who: seq<nat>, bytes: seq<nat>, c: nat): seq<nat>
    requires |who| == |bytes|
  {
    if who == [] then []
    else
      var n := |who| - 1;
      Part(who[..n], bytes[..n], c) + if who[n] == c then [bytes[n]] else []
  }

  /** bytes is an interleaving of what the calls have done of their buffers, and
      one process's calls come one after the other. */
  ghost predicate Merged(calls: seq<Call>, who: seq<nat>, bytes: seq<nat>) {
    && |who| == |bytes| && (forall k :: 0 <= k < |who| ==> who[k] < |calls|)
    && (forall c :: 0 <= c < |calls| ==>
          calls[c].n <= |calls[c].buf| && Part(who, bytes, c) == calls[c].buf[..calls[c].n])
    && (forall j, k :: 0 <= j < k < |who| && calls[who[j]].p == calls[who[k]].p ==> who[j] <= who[k])
  }

  /** latest[p] is the last of p's calls. */
  ghost predicate Latest(calls: seq<Call>, latest: seq<nat>) {
    && |latest| == NPROC && (forall p: Pid :: latest[p] < |calls| && calls[latest[p]].p == p)
    && (forall c :: 0 <= c < |calls| ==> c <= latest[calls[c].p])
  }

  lemma PartMore(who: seq<nat>, bytes: seq<nat>, c: nat, b: nat, d: nat)
    requires |who| == |bytes|
    ensures Part(who + [c], bytes + [b], d) == Part(who, bytes, d) + if d == c then [b] else []
  {
    assert (who + [c])[..|who|] == who && (bytes + [b])[..|bytes|] == bytes;
  }

  lemma {:induction false} PartNone(who: seq<nat>, bytes: seq<nat>, c: nat)
    requires |who| == |bytes| && forall k :: 0 <= k < |who| ==> who[k] != c
    ensures Part(who, bytes, c) == []
  {
    if who != [] {
      PartNone(who[..|who| - 1], bytes[..|who| - 1], c);
    }
  }

  /** A new call has done nothing. */
  lemma MergedNew(calls: seq<Call>, who: seq<nat>, bytes: seq<nat>, latest: seq<nat>, p: Pid, buf: seq<nat>)
    requires Merged(calls, who, bytes) && Latest(calls, latest)
    ensures Merged(calls + [Call(p, buf, 0)], who, bytes)
    ensures Latest(calls + [Call(p, buf, 0)], latest[p := |calls|])
  {
    PartNone(who, bytes, |calls|);
  }

  /** The latest call of p has done one more byte of its buffer. */
  lemma MergedMore(calls: seq<Call>, who: seq<nat>, bytes: seq<nat>, latest: seq<nat>, p: Pid, buf: seq<nat>, n: nat)
    requires Merged(calls, who, bytes) && Latest(calls, latest) && n < |buf|
    requires calls[latest[p]].n == n <= |calls[latest[p]].buf| && calls[latest[p]].buf[..n] == buf[..n]
    ensures Merged(calls[latest[p] := Call(p, buf, n + 1)], who + [latest[p]], bytes + [buf[n]])
    ensures Latest(calls[latest[p] := Call(p, buf, n + 1)], latest)
  {
    var c, more := latest[p], calls[latest[p] := Call(p, buf, n + 1)];
    forall d | 0 <= d < |more|
      ensures more[d].n <= |more[d].buf| && Part(who + [c], bytes + [buf[n]], d) == more[d].buf[..more[d].n]
    {
      PartMore(who, bytes, c, buf[n], d);
    }
  }

  // ---- every run ----

  /** The calls of the story are those that the processes are in. */
  ghost predicate At(h: Story, l: Local, p: Pid)
    requires |h.writing| == NPROC && |h.reading| == NPROC
  {
    && (l.Write? || l.Stuck? ==>
          h.writing[p] < |h.written| && h.written[h.writing[p]] == Call(p, l.src, l.i))
    && (l.Read? ==> h.reading[p] < |h.taken| && h.taken[h.reading[p]] == Call(p, [], 0))
    && (l.Copy? ==> h.reading[p] < |h.taken| && h.taken[h.reading[p]] == Call(p, l.got, |l.got|))
  }

  ghost predicate Follows(h: Story, s: State<Pipe, Local>) {
    && |s.procs| == NPROC && |h.writing| == NPROC && |h.reading| == NPROC
    && Latest(h.written, h.writing) && Latest(h.taken, h.reading)
    && Merged(h.written, h.puts, s.v.accepted) && Merged(h.taken, h.gets, s.v.delivered)
    && s.v.writeopen == (true !in h.closed) && s.v.readopen == (false !in h.closed)
    && forall p: Pid :: At(h, s.procs[p].l, p)
  }

  /** A new pipe, and processes that are about to call. */
  ghost predicate NewPipe(s: State<Pipe, Local>) {
    && |s.procs| == NPROC && s.v.accepted == [] && s.v.delivered == [] && s.v.readopen && s.v.writeopen
    && forall p: Pid :: Fresh(s.procs[p].l)
  }

  lemma OpeningFollows(s: State<Pipe, Local>)
    requires NewPipe(s)
    ensures Follows(Opening(s), s)
  {
    var h := Opening(s);
    forall p: Pid ensures At(h, s.procs[p].l, p) {
    }
  }

  lemma NotedFollows(h: Story, s: State<Pipe, Local>, p: Pid, a: Act<Pipe, Local>)
    requires Follows(h, s) && |s.procs| == NPROC && |h.writing| == NPROC && |h.reading| == NPROC
    requires May(true, s.procs[p].l, s.v, a)
    ensures Follows(Noted(h, p, s.procs[p].l, a), Next(s, Do(p, a)))
  {
    hide Merged, Latest, Follows, At, Next, Noted;
    var l := s.procs[p].l;
    if a.Leave? {
      NotedLeave(h, s, p, a);
    } else if a.Update? && l.Write? && a.l.Write? {
      NotedWrite(h, s, p, a);
    } else if a.Update? && l.Copy? && a.l.Copy? {
      NotedRead(h, s, p, a);
    } else {
      NotedRest(h, s, p, a);
    }
  }

  lemma NotedRest(h: Story, s: State<Pipe, Local>, p: Pid, a: Act<Pipe, Local>)
    requires Follows(h, s) && May(true, s.procs[p].l, s.v, a) && !a.Leave?
    requires !(a.Update? && s.procs[p].l.Write? && a.l.Write?) && !(a.Update? && s.procs[p].l.Copy? && a.l.Copy?)
    ensures Follows(Noted(h, p, s.procs[p].l, a), Next(s, Do(p, a)))
  {
    hide Merged, Latest, Full, Empty;
    var t := Next(s, Do(p, a));
    assert t.v.accepted == s.v.accepted && t.v.delivered == s.v.delivered;
    assert At(h, s.procs[p].l, p);
    var r := Noted(h, p, s.procs[p].l, a);
    forall q: Pid ensures At(r, t.procs[q].l, q) {
      assert At(h, s.procs[q].l, q);
    }
  }

  lemma {:induction false} ToldFollows(h: Story, s: State<Pipe, Local>, steps: seq<Step<Pipe, Local>>,
                                       t: State<Pipe, Local>)
    requires Follows(h, s) && Run(PipeClient(true), s, steps, t)
    ensures Follows(Told(h, s, steps), t)
    decreases |steps|
  {
    hide Merged, Latest;
    if steps != [] {
      var st := steps[0];
      if st.Do? {
        NotedFollows(h, s, st.p, st.act);
        ToldFollows(Noted(h, st.p, s.procs[st.p].l, st.act), Next(s, st), steps[1..], t);
      } else {
        OtherFollows(h, s, st);
        ToldFollows(h, Next(s, st), steps[1..], t);
      }
    }
  }

  lemma OtherFollows(h: Story, s: State<Pipe, Local>, st: Step<Pipe, Local>)
    requires Follows(h, s) && Can(PipeClient(true), s, st) && !st.Do?
    ensures Follows(h, Next(s, st))
  {
    hide Merged, Latest;
    var t := Next(s, st);
    assert t.v == s.v && |t.procs| == NPROC;
    forall p: Pid ensures t.procs[p].l == s.procs[p].l {
    }
  }

  lemma NotedLeave(h: Story, s: State<Pipe, Local>, p: Pid, a: Act<Pipe, Local>)
    requires Follows(h, s) && a.Leave? && Fresh(a.l)
    ensures Follows(Noted(h, p, s.procs[p].l, a), Next(s, Do(p, a)))
  {
    hide Merged, Latest;
    if a.l.Write? {
      MergedNew(h.written, h.puts, s.v.accepted, h.writing, p, a.l.src);
    } else if a.l.Read? {
      MergedNew(h.taken, h.gets, s.v.delivered, h.reading, p, []);
    }
    LatestOwn(h.written, h.writing);
    LatestOwn(h.taken, h.reading);
    var r, t := Noted(h, p, s.procs[p].l, a), Next(s, Do(p, a));
    forall q: Pid ensures At(r, t.procs[q].l, q) {
      assert At(h, s.procs[q].l, q);
    }
  }

  lemma LatestOwn(calls: seq<Call>, latest: seq<nat>)
    requires Latest(calls, latest)
    ensures |latest| == NPROC && forall p: Pid :: latest[p] < |calls| && calls[latest[p]].p == p
  {
  }

  lemma NotedWrite(h: Story, s: State<Pipe, Local>, p: Pid, a: Act<Pipe, Local>)
    requires Follows(h, s) && May(true, s.procs[p].l, s.v, a) && a.Update? && s.procs[p].l.Write? && a.l.Write?
    ensures Follows(Noted(h, p, s.procs[p].l, a), Next(s, Do(p, a)))
  {
    hide Merged, Latest, Full;
    var l := s.procs[p].l;
    assert At(h, l, p);
    LatestOwn(h.written, h.writing);
    MergedMore(h.written, h.puts, s.v.accepted, h.writing, p, l.src, l.i);
    var r, t := Noted(h, p, l, a), Next(s, Do(p, a));
    forall q: Pid ensures At(r, t.procs[q].l, q) {
      assert At(h, s.procs[q].l, q);
    }
  }

  lemma NotedRead(h: Story, s: State<Pipe, Local>, p: Pid, a: Act<Pipe, Local>)
    requires Follows(h, s) && May(true, s.procs[p].l, s.v, a) && a.Update? && s.procs[p].l.Copy? && a.l.Copy?
    ensures Follows(Noted(h, p, s.procs[p].l, a), Next(s, Do(p, a)))
  {
    hide Merged, Latest, Empty;
    var l := s.procs[p].l;
    assert At(h, l, p);
    LatestOwn(h.taken, h.reading);
    MergedMore(h.taken, h.gets, s.v.delivered, h.reading, p, a.l.got, |l.got|);
    var r, t := Noted(h, p, l, a), Next(s, Do(p, a));
    forall q: Pid ensures At(r, t.procs[q].l, q) {
      assert At(h, s.procs[q].l, q);
    }
  }

  /** In every run from a new pipe on, kills included: the bytes accepted are an
      interleaving of the beginnings of the writers' buffers, as far as each call
      has got; the bytes delivered are the first of these; and each reader has
      got its share of them, in order. An end is open until it has been closed. */
  lemma PipeDelivers(s: State<Pipe, Local>, steps: seq<Step<Pipe, Local>>, t: State<Pipe, Local>)
    requires Start(PipeClient(true), s) && NewPipe(s) && Run(PipeClient(true), s, steps, t)
    ensures var h := Told(Opening(s), s, steps);
      && Merged(h.written, h.puts, t.v.accepted) && Merged(h.taken, h.gets, t.v.delivered)
      && t.v.delivered <= t.v.accepted
      && t.v.writeopen == (true !in h.closed) && t.v.readopen == (false !in h.closed)
  {
    hide Merged, Latest;
    OpeningFollows(s);
    ToldFollows(Opening(s), s, steps, t);
    PipeOrdered(s, steps, t);
  }

  lemma {:induction false} PartAll(who: seq<nat>, bytes: seq<nat>, c: nat)
    requires |who| == |bytes| && forall k :: 0 <= k < |who| ==> who[k] == c
    ensures Part(who, bytes, c) == bytes
  {
    if who != [] {
      PartAll(who[..|who| - 1], bytes[..|who| - 1], c);
    }
  }

  lemma {:induction false} PartSome(who: seq<nat>, bytes: seq<nat>, k: nat)
    requires |who| == |bytes| && k < |who|
    ensures Part(who, bytes, who[k]) != []
  {
    if k < |who| - 1 {
      PartSome(who[..|who| - 1], bytes[..|who| - 1], k);
    }
  }

  /** If one call c alone has written, what has been read is the beginning of its
      buffer. */
  lemma OneWriter(s: State<Pipe, Local>, steps: seq<Step<Pipe, Local>>, t: State<Pipe, Local>, c: nat)
    requires Start(PipeClient(true), s) && NewPipe(s) && Run(PipeClient(true), s, steps, t)
    requires c < |Told(Opening(s), s, steps).written|
    requires forall d :: 0 <= d < |Told(Opening(s), s, steps).written| && d != c ==>
               Told(Opening(s), s, steps).written[d].n == 0
    ensures var w := Told(Opening(s), s, steps).written[c];
      w.n <= |w.buf| && t.v.accepted == w.buf[..w.n] && t.v.delivered <= w.buf[..w.n]
  {
    hide Told, Opening, Run, Start;
    PipeDelivers(s, steps, t);
    var h := Told(Opening(s), s, steps);
    forall k | 0 <= k < |h.puts| ensures h.puts[k] == c {
      PartSome(h.puts, t.v.accepted, k);
    }
    PartAll(h.puts, t.v.accepted, c);
  }

  // ---- when readers go on ----

  /** A reader that leaves its first loop finds bytes waiting, or the writers' end
      closed. */
  ghost predicate Patient(s: State<Pipe, Local>, st: Step<Pipe, Local>)
    requires |s.procs| == NPROC
  {
    st.Do? && s.procs[st.p].l.Read? && st.act.Update? ==> |s.v.accepted| > |s.v.delivered| || !s.v.writeopen
  }

  ghost predicate AllPatient(s: State<Pipe, Local>, steps: seq<Step<Pipe, Local>>)
    requires |s.procs| == NPROC
    decreases |steps|
  {
    steps == [] ||
    (Patient(s, steps[0]) && |Next(s, steps[0]).procs| == NPROC && AllPatient(Next(s, steps[0]), steps[1..]))
  }

  lemma {:induction false} PatientRun(s: State<Pipe, Local>, steps: seq<Step<Pipe, Local>>, t: State<Pipe, Local>)
    requires |s.procs| == NPROC && Inv(Unjudged(), s) && Run(Unjudged(), s, steps, t)
    ensures AllPatient(s, steps)
    decreases |steps|
  {
    hide Inv, Next;
    if steps != [] {
      PatientStep(s, steps[0]);
      Respects(true);
      StepInv(Unjudged(), s, steps[0]);
      PatientRun(Next(s, steps[0]), steps[1..], t);
    }
  }

  lemma PatientStep(s: State<Pipe, Local>, st: Step<Pipe, Local>)
    requires Inv(Unjudged(), s) && Can(Unjudged(), s, st)
    ensures Patient(s, st)
  {
    hide Fifo;
    Counters(s.v);
  }

  /** In every run a read comes back with nothing only at the end of the file, for
      want of anything asked for, or on an error of its own. */
  lemma ReadersWait(s: State<Pipe, Local>, steps: seq<Step<Pipe, Local>>, t: State<Pipe, Local>)
    requires Start(PipeClient(true), s) && Run(PipeClient(true), s, steps, t)
    ensures AllPatient(s, steps)
  {
    StartInv(Unjudged(), s);
    RunSame(PipeClient(true), Unjudged(), s, steps, t);
    PatientRun(s, steps, t);
  }
}
