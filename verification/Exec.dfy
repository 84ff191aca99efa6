/** The memory half of kernel/exec.c: a program's segments are loaded into a new
    page table, a stack with a guard page and the arguments are added, and the
    table takes the place of the process's old one. */
module Exec {
  import opened Common
  import opened PageRefs
  import opened CopyOnWrite
  import opened Kernel = Memory
  import opened ProgramImage

  // ---- a new space being filled ----

  ghost predicate Sound(s: State, sz: map<nat, nat>) {
    Inv(s) && Bounded(s.leaf, sz) && Fits(sz) && Owned(s.own, sz)
  }

  /** Nothing but space next has changed. */
  ghost predicate Kept(s0: State, s: State, next: nat) {
    && s.shm == s0.shm && s.extra == s0.extra && s.tainted == s0.tainted
    && Sized(s0) && Sized(s) && Grows(s0.own, s.own) && AddsFor(s0.own, s.own, next) && Frame(next) !in s0.own
    && (forall k: UPage :: k.space != next ==> (k in s.leaf <==> k in s0.leaf))
    && (forall k: UPage :: k.space != next && k in s0.leaf ==> s.leaf[k] == s0.leaf[k] && s.perm[k] == s0.perm[k])
  }

  ghost predicate SameElsewhere(e: Eager, f: Eager, next: nat) {
    forall x: UPage :: x.space != next ==> f(x) == e(x)
  }

  /** Space next exists, with size n, and can still be given up. */
  ghost predicate Undoable(s0: State, sz0: map<nat, nat>, s: State, sz: map<nat, nat>, next: nat, n: nat, e: Eager,
                           f: Eager) {
    && Sound(s, sz) && next !in sz0 && sz == sz0[next := n]
    && Refines(s, f) && SameElsewhere(e, f, next) && Kept(s0, s, next)
  }

  /** The first n pages of the program are there, with its permissions, and have
      no other holder. */
  ghost predicate Laid(s: State, next: nat, n: nat, hs: seq<Header>)
    requires Sized(s)
  {
    forall k :: InRange(k, next, 0, n) ==> k in s.leaf && s.perm[k] == ImagePerm(hs, k.vpn) && s.ref[s.leaf[k]] == 1
  }

  /** The memory spent on n pages: at least a page each, at most three. */
  predicate Spent(s0: State, s: State, n: nat) {
    |s0.free| - 3 - 3 * n <= |s.free| <= |s0.free| - n
  }

  /** The segments hs have been loaded. */
  ghost predicate Loading(s0: State, sz0: map<nat, nat>, s: State, sz: map<nat, nat>, next: nat, e: Eager,
                          hs: seq<Header>) {
    && Undoable(s0, sz0, s, sz, next, SizeOf(hs), e, Loaded(e, next, hs))
    && Laid(s, next, Guard(hs), hs) && Spent(s0, s, Guard(hs)) && Loads(hs)
  }

  // ---- loadseg ----

  /** walkaddr finds the pages of n bytes from va on, and writing them by their
      physical addresses touches no other page. */
  ghost predicate Pokable(s: State, next: nat, va: nat, n: nat)
    requires Sized(s)
  {
    forall v :: va / PGSIZE <= v && v * PGSIZE < va + n ==>
      UPage(next, v) in s.leaf && s.perm[UPage(next, v)].u && s.ref[s.leaf[UPage(next, v)]] == 1
  }

  lemma PokableAt(s: State, t: State, next: nat, va: nat, n: nat, i: nat)
    requires Sized(s) && Pokable(s, next, va, n) && t == s.(pages := t.pages) && |t.pages| == NPAGES && i < n
    ensures var k := UPage(next, (va + i) / PGSIZE);
      k in t.leaf && k in t.perm && t.perm[k].u && t.ref[t.leaf[k]] == 1
  {
    var v := (va + i) / PGSIZE;
    assert va / PGSIZE <= v && v * PGSIZE < va + n;
  }

  /** One turn of loadseg's loop: the page at va + i. */
  method LoadPage(k: Memory, next: nat, va: nat, filesz: nat, data: seq<nat>, i: nat, ghost s0: State, ghost e: Eager)
    returns (ok: bool)
    requires Inv(k.s) && k.s == s0.(pages := k.s.pages) && Sized(s0) && Pokable(s0, next, va, filesz)
    requires va % PGSIZE == 0 && i % PGSIZE == 0 && i < filesz && i <= |data|
    requires Refines(k.s, Stored(e, next, va, data[..i]))
    modifies k`s
    ensures Inv(k.s) && k.s == s0.(pages := k.s.pages)
    ensures var end := Least(i + PGSIZE, filesz);
      (ok <==> end <= |data|) && Refines(k.s, Stored(e, next, va, data[..Least(end, |data|)]))
  {
    hide Inv, Refines, Stored, Pokable;
    ghost var f := Stored(e, next, va, data[..i]);
    RefinesSized(k.s, f);
    PokableAt(s0, k.s, next, va, filesz, i);
    var n := if filesz - i < PGSIZE then filesz - i else PGSIZE;
    var m := Least(n, |data| - i);
    var page := UPage(next, (va + i) / PGSIZE);
    k.WritePage(page, 0, data[i..i + m], f);
    assert page.vpn * PGSIZE + 0 == va + i;
    StoredTwice(k.s, e, next, va, data, i, i + m);
    ok := m == n;
  }

  /** loadseg: fails exactly if the file is too short; what it has is stored
      then. The pages are there, so it does not panic. Sizes are below 2^32 by
      the memory there is, so that the narrower type of its parameter loses
      nothing. */
  method LoadSeg(k: Memory, next: nat, va: nat, filesz: nat, data: seq<nat>, ghost e: Eager) returns (ok: bool)
    requires Inv(k.s) && Refines(k.s, e) && va % PGSIZE == 0 && Sized(k.s) && Pokable(k.s, next, va, filesz)
    modifies k`s
    ensures Inv(k.s) && (ok <==> filesz <= |data|) && k.s == old(k.s).(pages := k.s.pages)
    ensures Refines(k.s, Stored(e, next, va, data[..Least(filesz, |data|)]))
  {
    hide Inv, Refines, Stored, Pokable;
    StoredNothing(k.s, e, next, va);
    var i := 0;
    assert data[..0] == [];
    while i < filesz
      invariant 0 <= i && i % PGSIZE == 0 && Least(i, filesz) <= |data|
      invariant Inv(k.s) && k.s == old(k.s).(pages := k.s.pages)
      invariant Refines(k.s, Stored(e, next, va, data[..Least(i, filesz)]))
      decreases filesz - i
    {
      ok := LoadPage(k, next, va, filesz, data, i, old(k.s), e);
      if !ok {
        return;
      }
      i := i + PGSIZE;
    }
    ok := true;
  }

  // ---- the program's segments ----

  lemma KeptExtended(s0: State, s: State, t: State, next: nat, lo: nat, hi: nat)
    requires Kept(s0, s, next) && Sized(t) && SameBut(s, t) && AddsFor(s.own, t.own, next)
    requires Extended(s.leaf, t.leaf, next, lo, hi) && Extended(s.perm, t.perm, next, lo, hi)
    ensures Kept(s0, t, next)
  {
    forall k: UPage | k.space != next
      ensures (k in t.leaf <==> k in s.leaf) && (k in s.leaf ==> t.leaf[k] == s.leaf[k] && t.perm[k] == s.perm[k])
    {
      assert k in t.leaf <==> k in Outside(t.leaf, next, lo, hi);
      assert k in t.perm <==> k in Outside(t.perm, next, lo, hi);
    }
    hide Extended, Outside, AddsFor;
    AddsMore(s0.own, s.own, t.own, next);
  }

  /** uvmalloc has raised the space's size to n1. */
  lemma UndoableMore(s0: State, sz0: map<nat, nat>, s: State, sz: map<nat, nat>, t: State, next: nat, n: nat, n1: nat,
                     e: Eager, f: Eager)
    requires Undoable(s0, sz0, s, sz, next, n, e, f) && n <= n1 <= TRAPFRAME * PGSIZE
    requires Inv(t) && Refines(t, f) && SameBut(s, t) && AddsFor(s.own, t.own, next)
    requires Extended(s.leaf, t.leaf, next, PagesOf(n), PagesOf(n1))
    requires Extended(s.perm, t.perm, next, PagesOf(n), PagesOf(n1))
    ensures Undoable(s0, sz0, t, sz[next := n1], next, n1, e, f)
  {
    hide Inv, Refines, Extended, AddsFor, Owned, Bounded, SameElsewhere, Kept, SameBut;
    ExtendedBounded(s.leaf, t.leaf, sz, next, n1);
    OwnedMore(s.own, t.own, sz, next);
    OwnedSame(t.own, sz, next, n1);
    RefinesSized(t, f);
    KeptExtended(s0, s, t, next, PagesOf(n), PagesOf(n1));
  }

  lemma KeptSame(s0: State, s: State, t: State, next: nat)
    requires Kept(s0, s, next) && t.leaf == s.leaf && t.perm == s.perm && Sized(t)
    requires SameBut(s, t) && AddsFor(s.own, t.own, next)
    ensures Kept(s0, t, next)
  {
  }

  /** uvmalloc has failed. */
  lemma UndoableSame(s0: State, sz0: map<nat, nat>, s: State, sz: map<nat, nat>, t: State, next: nat, n: nat,
                     e: Eager, f: Eager)
    requires Undoable(s0, sz0, s, sz, next, n, e, f) && t.leaf == s.leaf && t.perm == s.perm
    requires Inv(t) && Refines(t, f) && SameBut(s, t) && AddsFor(s.own, t.own, next)
    ensures Undoable(s0, sz0, t, sz, next, n, e, f)
  {
    hide Inv, Refines, Owned, Bounded, Fits, SameElsewhere, Kept, SameBut, AddsFor;
    OwnedMore(s.own, t.own, sz, next);
    RefinesSized(t, f);
    KeptSame(s0, s, t, next);
  }

  /** The pages of the segments so far, and those that uvmalloc has added for h. */
  lemma LaidMore(s: State, t: State, next: nat, hs: seq<Header>, h: Header)
    requires Sized(s) && Sized(t) && Laid(s, next, Guard(hs), hs) && RefsKept(s, t)
    requires h.Segment? && SizeOf(hs) <= SizeOf(hs + [h])
    requires Extended(s.perm, t.perm, next, Guard(hs), Guard(hs + [h]))
    requires AllOwn(t, next, Guard(hs), Guard(hs + [h]), SegmentPerm(h))
    ensures Laid(t, next, Guard(hs + [h]), hs + [h])
  {
    SizeMore(hs, h);
    hide SizeOf, PagesOf;
    forall k | InRange(k, next, 0, Guard(hs + [h]))
      ensures k in t.leaf && t.perm[k] == ImagePerm(hs + [h], k.vpn) && t.ref[t.leaf[k]] == 1
    {
      if k.vpn < Guard(hs) {
        assert InRange(k, next, 0, Guard(hs));
        assert k in Outside(t.perm, next, Guard(hs), Guard(hs + [h]));
      } else {
        assert InRange(k, next, Guard(hs), Guard(hs + [h]));
      }
    }
  }

  lemma LaidSame(s: State, next: nat, hs: seq<Header>, h: Header)
    requires Sized(s) && Laid(s, next, Guard(hs), hs) && SizeOf(hs + [h]) == SizeOf(hs)
    ensures Laid(s, next, Guard(hs + [h]), hs + [h])
  {
    SizeMore(hs, h);
    hide SizeOf, PagesOf;
  }

  lemma RoomAbove(leaf: map<UPage, Pa>, sz: map<nat, nat>, next: nat, n: nat, n1: nat)
    requires Bounded(leaf, sz) && next in sz && sz[next] == n
    ensures forall k :: k in leaf ==> !InRange(k, next, PagesOf(n), n1)
  {
  }

  /** uvmalloc for segment h. */
  method AllocSegment(k: Memory, next: nat, ghost hs: seq<Header>, h: Header, ghost e: Eager, ghost s0: State,
                      ghost sz0: map<nat, nat>) returns (r: nat)
    requires Loading(s0, sz0, k.s, k.sz, next, e, hs) && |s0.free| <= NPAGES && h.Segment?
    modifies k`s, k`sz
    ensures r != 0 ==>
              && Undoable(s0, sz0, k.s, k.sz, next, SizeOf(hs + [h]), e, Loaded(e, next, hs))
              && Laid(k.s, next, Guard(hs + [h]), hs + [h]) && Spent(s0, k.s, Guard(hs + [h])) && SizeOf(hs + [h]) > 0
    ensures r == 0 ==>
              && Undoable(s0, sz0, k.s, k.sz, next, SizeOf(hs), e, Loaded(e, next, hs))
              && (SizeOf(hs + [h]) == 0 || |s0.free| < 3 + 3 * Guard(hs + [h]))
  {
    hide Inv, Refines, Extended, AddsFor, Owned, Bounded, Fits, SameElsewhere, Kept, SameBut, Laid, AllOwn, RefsKept;
    hide Loaded, SizeOf, Loads, PagesOf;
    SizeMore(hs, h);
    ghost var s, f := k.s, Loaded(e, next, hs);
    var to := h.vaddr + h.memsz;
    RoomAbove(k.s.leaf, k.sz, next, k.sz[next], PagesOf(to));
    r := k.Uvmalloc(next, k.sz[next], to, SegmentPerm(h), f);
    RefinesSized(k.s, f);
    assert k.sz[next := r] == sz0[next := r];
    if to < k.sz[next] {
      LaidSame(k.s, next, hs, h);
    } else if r == to {
      UndoableMore(s0, sz0, s, k.sz, k.s, next, SizeOf(hs), to, e, f);
      LaidMore(s, k.s, next, hs, h);
    } else {
      UndoableSame(s0, sz0, s, k.sz, k.s, next, SizeOf(hs), e, f);
    }
    if r != 0 {
      k.sz := k.sz[next := r];
    }
  }

  lemma LoadsMore(hs: seq<Header>, h: Header)
    ensures Loads(hs + [h]) <==> Loads(hs) && Accepted(h) && (h.Segment? ==> SizeOf(hs + [h]) > 0)
  {
    assert (hs + [h])[..|hs|] == hs;
  }

  lemma LoadedMore(e: Eager, next: nat, hs: seq<Header>, h: Header)
    ensures Loaded(e, next, hs + [h]) ==
              if h.Segment? && h.filesz <= |h.data| then Stored(Loaded(e, next, hs), next, h.vaddr, h.data[..h.filesz])
              else Loaded(e, next, hs)
  {
    assert (hs + [h])[..|hs|] == hs;
  }

  /** Page contents have changed, in space next only. */
  lemma UndoablePoked(s0: State, sz0: map<nat, nat>, s: State, t: State, sz: map<nat, nat>, next: nat, n: nat, e: Eager,
                      f: Eager, va: nat, src: seq<nat>)
    requires Undoable(s0, sz0, s, sz, next, n, e, f) && t == s.(pages := t.pages)
    requires Inv(t) && Refines(t, Stored(f, next, va, src))
    ensures Undoable(s0, sz0, t, sz, next, n, e, Stored(f, next, va, src))
  {
    hide Inv, Refines, Owned, Bounded, Fits, SameElsewhere, Kept;
    RefinesSized(t, Stored(f, next, va, src));
    KeptSame(s0, s, t, next);
    ElsewhereStored(e, f, next, va, src);
  }

  lemma ElsewhereStored(e: Eager, f: Eager, next: nat, va: nat, src: seq<nat>)
    requires SameElsewhere(e, f, next)
    ensures SameElsewhere(e, Stored(f, next, va, src), next)
  {
  }

  lemma LaidPoked(s: State, t: State, next: nat, n: nat, hs: seq<Header>)
    requires Sized(s) && Laid(s, next, n, hs) && t == s.(pages := t.pages) && Sized(t)
    ensures Laid(t, next, n, hs)
  {
  }

  lemma LaidPokable(s: State, next: nat, hs: seq<Header>, va: nat, n: nat)
    requires Sized(s) && Laid(s, next, Guard(hs), hs) && va + n <= SizeOf(hs)
    ensures Pokable(s, next, va, n)
  {
    forall v | va / PGSIZE <= v && v * PGSIZE < va + n
      ensures UPage(next, v) in s.leaf && s.perm[UPage(next, v)].u && s.ref[s.leaf[UPage(next, v)]] == 1
    {
      assert InRange(UPage(next, v), next, 0, Guard(hs));
      AllUser(hs, v);
    }
  }

  lemma {:induction false} AllUser(hs: seq<Header>, v: nat)
    ensures PermAt(hs, v).u
  {
    if hs != [] && v < PagesOf(SizeOf(hs[..|hs| - 1])) {
      AllUser(hs[..|hs| - 1], v);
    }
  }

  /** One turn of the loop over the program headers. */
  method LoadHeader(k: Memory, next: nat, ghost hs: seq<Header>, h: Header, ghost e: Eager, ghost s0: State,
                    ghost sz0: map<nat, nat>) returns (ok: bool, ghost n: nat, ghost f: Eager)
    requires Loading(s0, sz0, k.s, k.sz, next, e, hs) && |s0.free| <= NPAGES
    modifies k`s, k`sz
    ensures ok ==> Loading(s0, sz0, k.s, k.sz, next, e, hs + [h])
    ensures !ok ==> Undoable(s0, sz0, k.s, k.sz, next, n, e, f)
    ensures !ok ==> !Loads(hs + [h]) || |s0.free| < 3 + 3 * Guard(hs + [h])
  {
    hide Inv, Undoable, Laid, Loaded, SizeOf, Loads, PagesOf, Stored;
    n, f := SizeOf(hs), Loaded(e, next, hs);
    SizeMore(hs, h);
    LoadsMore(hs, h);
    LoadedMore(e, next, hs, h);
    UndoableFacts(s0, sz0, k.s, k.sz, next, n, e, f);
    if h.Unreadable? {
      return false, n, f;
    }
    if h.Skipped? {
      LaidSame(k.s, next, hs, h);
      return true, n, f;
    }
    if h.memsz < h.filesz || h.vaddr + h.memsz >= U64 || h.vaddr % PGSIZE != 0 {
      return false, n, f;
    }
    var r := AllocSegment(k, next, hs, h, e, s0, sz0);
    if r == 0 {
      return false, n, f;
    }
    n := SizeOf(hs + [h]);
    UndoableFacts(s0, sz0, k.s, k.sz, next, n, e, f);
    LaidPokable(k.s, next, hs + [h], h.vaddr, h.filesz);
    ghost var s := k.s;
    ok := LoadSeg(k, next, h.vaddr, h.filesz, h.data, f);
    UndoablePoked(s0, sz0, s, k.s, k.sz, next, n, e, f, h.vaddr, h.data[..Least(h.filesz, |h.data|)]);
    f := Stored(f, next, h.vaddr, h.data[..Least(h.filesz, |h.data|)]);
    UndoableFacts(s0, sz0, k.s, k.sz, next, n, e, f);
    LaidPoked(s, k.s, next, Guard(hs + [h]), hs + [h]);
  }

  lemma UndoableFacts(s0: State, sz0: map<nat, nat>, s: State, sz: map<nat, nat>, next: nat, n: nat, e: Eager, f: Eager)
    requires Undoable(s0, sz0, s, sz, next, n, e, f)
    ensures Inv(s) && Sized(s) && Refines(s, f) && next in sz && sz[next] == n
  {
  }

  /** The loop over the program headers. */
  method LoadAll(k: Memory, next: nat, hs: seq<Header>, ghost e: Eager, ghost s0: State, ghost sz0: map<nat, nat>)
    returns (ok: bool, ghost n: nat, ghost f: Eager)
    requires Loading(s0, sz0, k.s, k.sz, next, e, []) && |s0.free| <= NPAGES
    modifies k`s, k`sz
    ensures ok ==> Loading(s0, sz0, k.s, k.sz, next, e, hs)
    ensures !ok ==> Undoable(s0, sz0, k.s, k.sz, next, n, e, f)
    ensures !ok ==> !Loads(hs) || |s0.free| < 3 + 3 * Guard(hs)
  {
    hide Loading, Undoable, Loads, SizeOf;
    n, f := 0, e;
    var i := 0;
    assert hs[..0] == [];
    while i < |hs|
      invariant 0 <= i <= |hs| && Loading(s0, sz0, k.s, k.sz, next, e, hs[..i])
    {
      ok, n, f := LoadHeader(k, next, hs[..i], hs[i], e, s0, sz0);
      assert hs[..i + 1] == hs[..i] + [hs[i]];
      if !ok {
        SizeGrows(hs, i + 1);
        return;
      }
      i := i + 1;
    }
    assert hs[..i] == hs;
    ok := true;
  }

  // ---- the stack ----

  /** The program is there, with its stack; f is what the processes see. */
  ghost predicate Built(s0: State, sz0: map<nat, nat>, s: State, sz: map<nat, nat>, next: nat, e: Eager, f: Eager,
                        hs: seq<Header>) {
    Undoable(s0, sz0, s, sz, next, Top(hs), e, f) && Laid(s, next, Guard(hs) + 1 + USERSTACK, hs)
  }

  /** PGROUNDUP of the size changes no page. */
  lemma UndoableRounded(s0: State, sz0: map<nat, nat>, s: State, sz: map<nat, nat>, next: nat, n: nat, e: Eager,
                        f: Eager)
    requires Undoable(s0, sz0, s, sz, next, n, e, f)
    ensures Undoable(s0, sz0, s, sz[next := PagesOf(n) * PGSIZE], next, PagesOf(n) * PGSIZE, e, f)
    ensures PagesOf(PagesOf(n) * PGSIZE) == PagesOf(n)
  {
    hide Inv, Refines, SameElsewhere, Kept, Owned;
    OwnedSame(s.own, sz, next, PagesOf(n) * PGSIZE);
    FitsPages(sz, next);
    assert PagesOf(PagesOf(n) * PGSIZE) == PagesOf(n);
    assert sz[next := PagesOf(n) * PGSIZE] == sz0[next := PagesOf(n) * PGSIZE];
  }

  /** uvmclear: the guard page is no user page any more. */
  lemma UvmclearKeeps(s: State, p: UPage, e: Eager)
    requires Inv(s) && Refines(s, e) && p in s.leaf
    ensures p in s.perm && Inv(s.(perm := s.perm[p := s.perm[p].(u := false)]))
    ensures Refines(s.(perm := s.perm[p := s.perm[p].(u := false)]), e)
  {
    hide Counted, FreeList, Exclusive, SharedLive;
    var t := s.(perm := s.perm[p := s.perm[p].(u := false)]);
    forall x | Private(t, x) ensures View(t, x) == e(x) {
      assert Private(s, x);
    }
  }

  lemma KeptCleared(s0: State, s: State, next: nat, p: UPage)
    requires Kept(s0, s, next) && p in s.perm && p.space == next
    ensures Kept(s0, s.(perm := s.perm[p := s.perm[p].(u := false)]), next)
  {
    assert s.perm[p := s.perm[p].(u := false)].Keys == s.perm.Keys;
  }

  lemma UndoableCleared(s0: State, sz0: map<nat, nat>, s: State, sz: map<nat, nat>, next: nat, n: nat, e: Eager,
                        f: Eager, p: UPage)
    requires Undoable(s0, sz0, s, sz, next, n, e, f) && p in s.leaf && p in s.perm && p.space == next
    ensures Undoable(s0, sz0, s.(perm := s.perm[p := s.perm[p].(u := false)]), sz, next, n, e, f)
  {
    hide Inv, Refines, Kept, SameElsewhere, Bounded, Fits, Owned;
    UvmclearKeeps(s, p, f);
    KeptCleared(s0, s, next, p);
  }

  lemma LaidStack(s: State, t: State, next: nat, hs: seq<Header>)
    requires Sized(s) && Sized(t) && Laid(s, next, Guard(hs), hs) && RefsKept(s, t)
    requires Extended(s.perm, t.perm, next, Guard(hs), Guard(hs) + 1 + USERSTACK)
    requires AllOwn(t, next, Guard(hs), Guard(hs) + 1 + USERSTACK, StackPerm(true))
    ensures var g := UPage(next, Guard(hs));
      g in t.leaf && Laid(t.(perm := t.perm[g := t.perm[g].(u := false)]), next, Guard(hs) + 1 + USERSTACK, hs)
  {
    hide SizeOf, PagesOf;
    var g, hi := UPage(next, Guard(hs)), Guard(hs) + 1 + USERSTACK;
    assert InRange(g, next, Guard(hs), hi);
    var u := t.(perm := t.perm[g := t.perm[g].(u := false)]);
    forall k | InRange(k, next, 0, hi)
      ensures k in u.leaf && u.perm[k] == ImagePerm(hs, k.vpn) && u.ref[u.leaf[k]] == 1
    {
      if k.vpn < Guard(hs) {
        assert InRange(k, next, 0, Guard(hs));
        assert k in Outside(t.perm, next, Guard(hs), hi);
      } else {
        assert InRange(k, next, Guard(hs), hi);
      }
    }
  }

  /** uvmalloc of the guard page and the stack, and uvmclear. */
  method AllocStack(k: Memory, next: nat, ghost hs: seq<Header>, ghost e: Eager, ghost s0: State,
                    ghost sz0: map<nat, nat>) returns (ok: bool)
    requires Loading(s0, sz0, k.s, k.sz, next, e, hs) && |s0.free| <= NPAGES
    modifies k`s, k`sz
    ensures ok ==> Built(s0, sz0, k.s, k.sz, next, e, Loaded(e, next, hs), hs)
    ensures !ok ==> Undoable(s0, sz0, k.s, k.sz, next, Guard(hs) * PGSIZE, e, Loaded(e, next, hs))
    ensures !ok ==> |s0.free| < 3 + 3 * (Guard(hs) + 1 + USERSTACK)
  {
    hide Inv, Refines, Extended, AddsFor, Owned, Bounded, Fits, SameElsewhere, Kept, SameBut, Laid, AllOwn, RefsKept;
    hide Loaded, SizeOf, Loads;
    ghost var f := Loaded(e, next, hs);
    UndoableRounded(s0, sz0, k.s, k.sz, next, SizeOf(hs), e, f);
    var sz := PagesOf(k.sz[next]) * PGSIZE;
    k.sz := k.sz[next := sz];
    ghost var s := k.s;
    var top := sz + (USERSTACK + 1) * PGSIZE;
    RoomAbove(k.s.leaf, k.sz, next, sz, PagesOf(top));
    RefinesSized(s, f);
    var r := k.Uvmalloc(next, sz, top, StackPerm(true), f);
    if r == 0 {
      UndoableSame(s0, sz0, s, k.sz, k.s, next, sz, e, f);
      return false;
    }
    UndoableMore(s0, sz0, s, k.sz, k.s, next, sz, top, e, f);
    LaidStack(s, k.s, next, hs);
    var g := UPage(next, sz / PGSIZE);
    UndoableCleared(s0, sz0, k.s, k.sz[next := top], next, top, e, f, g);
    k.sz := k.sz[next := top];
    k.s := k.s.(perm := k.s.perm[g := k.s.perm[g].(u := false)]);
    ok := true;
  }

  /** The stack only grows downwards. */
  lemma {:induction false} SpFalls(top: nat, argv: seq<seq<nat>>, i: nat)
    requires i <= |argv|
    ensures VectorSp(top, argv) <= ArgSp(top, argv, |argv|) <= ArgSp(top, argv, i)
    decreases |argv| - i
  {
    if i < |argv| {
      SpFalls(top, argv, i + 1);
    }
  }

  lemma LaidReady(s: State, next: nat, hs: seq<Header>, sp: nat, len: nat)
    requires Sized(s) && Laid(s, next, Guard(hs) + 1 + USERSTACK, hs)
    requires Top(hs) - USERSTACK * PGSIZE <= sp && sp + len <= Top(hs)
    ensures Ready(s, next, sp, len)
  {
    hide SizeOf, PagesOf, PermAt;
    forall v | sp / PGSIZE <= v && v * PGSIZE < sp + len ensures ReadyAt(s, UPage(next, v)) {
      assert InRange(UPage(next, v), next, 0, Guard(hs) + 1 + USERSTACK);
    }
  }

  /** copyout to the new stack always succeeds. */
  method Push(k: Memory, next: nat, ghost hs: seq<Header>, sp: nat, src: seq<nat>, ghost e: Eager, ghost f: Eager,
              ghost s0: State, ghost sz0: map<nat, nat>) returns (ok: bool)
    requires Built(s0, sz0, k.s, k.sz, next, e, f, hs)
    requires Top(hs) - USERSTACK * PGSIZE <= sp && sp + |src| <= Top(hs)
    modifies k`s
    ensures ok && Built(s0, sz0, k.s, k.sz, next, e, Stored(f, next, sp, src), hs)
  {
    hide Inv, Refines, Bounded, Fits, Owned, SameElsewhere, Kept, Laid, Stored, Ready, Top, Guard;
    UndoableFacts(s0, sz0, k.s, k.sz, next, Top(hs), e, f);
    LaidReady(k.s, next, hs, sp, |src|);
    ghost var s := k.s;
    var n;
    ok, n := k.Copyout(next, sp, src, f);
    assert src[..n] == src;
    UndoablePoked(s0, sz0, s, k.s, k.sz, next, Top(hs), e, f, sp, src);
    RefinesSized(k.s, Stored(f, next, sp, src));
    LaidPoked(s, k.s, next, Guard(hs) + 1 + USERSTACK, hs);
  }

  /** The argument strings are copied to the stack exactly if they fit there. (A
      pointer that wraps around below zero is beyond any user page, and copyout
      refuses it.) ustack holds their addresses, as the bytes that follow. */
  method PushStrings(k: Memory, next: nat, ghost hs: seq<Header>, argv: seq<seq<nat>>, ghost e: Eager, ghost g: Eager,
                     ghost s0: State, ghost sz0: map<nat, nat>)
    returns (ok: bool, sp: int, ustack: seq<nat>, ghost f: Eager)
    requires Built(s0, sz0, k.s, k.sz, next, e, g, hs)
    modifies k`s
    ensures Built(s0, sz0, k.s, k.sz, next, e, f, hs)
    ensures ok <==> ArgSp(Top(hs), argv, |argv|) >= Top(hs) - USERSTACK * PGSIZE
    ensures ok ==> sp == ArgSp(Top(hs), argv, |argv|) >= 0 && sp <= Top(hs)
    ensures ok ==> f == Argued(g, next, Top(hs), argv, |argv|) && ustack == Addresses(Top(hs), argv, |argv|)
  {
    hide Stored, Top, Undoable, Laid, Built, LittleEndian;
    f := g;
    BuiltTop(s0, sz0, k.s, k.sz, next, e, f, hs);
    var top := k.sz[next];
    var stackbase := top - USERSTACK * PGSIZE;
    sp := top;
    var argc := 0;
    ustack := [];
    while argc < |argv|
      invariant 0 <= argc <= |argv| && stackbase <= sp == ArgSp(top, argv, argc) <= top
      invariant Built(s0, sz0, k.s, k.sz, next, e, f, hs)
      invariant f == Argued(g, next, top, argv, argc) && ustack == Addresses(top, argv, argc)
    {
      sp := sp - (|argv[argc]| + 1);
      sp := sp - sp % 16;
      SpFalls(top, argv, argc + 1);
      if sp < stackbase {
        return false, sp, ustack, f;
      }
      ok := Push(k, next, hs, sp, argv[argc] + [0], e, f, s0, sz0);
      f := Stored(f, next, sp, argv[argc] + [0]);
      argc := argc + 1;
      ustack := ustack + LittleEndian(sp, 8);
    }
    ok := true;
  }

  /** The arguments, and then their addresses, are copied to the stack exactly if
      they fit there. */
  method PushArgs(k: Memory, next: nat, ghost hs: seq<Header>, argv: seq<seq<nat>>, ghost e: Eager, ghost s0: State,
                  ghost sz0: map<nat, nat>) returns (ok: bool, sp: int, ghost f: Eager)
    requires Built(s0, sz0, k.s, k.sz, next, e, Loaded(e, next, hs), hs) && Loads(hs) && |argv| < MAXARG
    modifies k`s
    ensures Built(s0, sz0, k.s, k.sz, next, e, f, hs)
    ensures ok <==> Runs(hs, argv)
    ensures ok ==> f == Image(e, next, hs, argv) && sp == VectorSp(Top(hs), argv)
  {
    hide Loads, Loaded, Stored, Top, Undoable, Laid, Built, Runs, Image, LittleEndian, ArgSp, Argued, Addresses;
    RunsWhen(hs, argv);
    SpFalls(Top(hs), argv, |argv|);
    var ustack;
    ok, sp, ustack, f := PushStrings(k, next, hs, argv, e, Loaded(e, next, hs), s0, sz0);
    if !ok {
      return;
    }
    BuiltTop(s0, sz0, k.s, k.sz, next, e, f, hs);
    ustack := ustack + LittleEndian(0, 8);
    sp := sp - (|argv| + 1) * 8;
    sp := sp - sp % 16;
    if sp < k.sz[next] - USERSTACK * PGSIZE {
      return false, sp, f;
    }
    ok := Push(k, next, hs, sp, ustack, e, f, s0, sz0);
    f := Stored(f, next, sp, ustack);
    ImageIs(e, next, hs, argv);
  }

  lemma RunsWhen(hs: seq<Header>, argv: seq<seq<nat>>)
    requires Loads(hs) && |argv| < MAXARG
    ensures Runs(hs, argv) <==> VectorSp(Top(hs), argv) >= Top(hs) - USERSTACK * PGSIZE
    ensures Top(hs) >= USERSTACK * PGSIZE
  {
  }

  lemma ImageIs(e: Eager, next: nat, hs: seq<Header>, argv: seq<seq<nat>>)
    requires Runs(hs, argv)
    ensures ArgSp(Top(hs), argv, |argv|) >= 0 && VectorSp(Top(hs), argv) >= 0
    ensures Image(e, next, hs, argv) ==
            Stored(Argued(Loaded(e, next, hs), next, Top(hs), argv, |argv|), next, VectorSp(Top(hs), argv),
                   Addresses(Top(hs), argv, |argv|) + LittleEndian(0, 8))
  {
  }

  lemma BuiltTop(s0: State, sz0: map<nat, nat>, s: State, sz: map<nat, nat>, next: nat, e: Eager, f: Eager,
                 hs: seq<Header>)
    requires Built(s0, sz0, s, sz, next, e, f, hs)
    ensures next in sz && sz[next] == Top(hs) >= USERSTACK * PGSIZE
  {
  }

  // ---- the exchange ----

  /** p->trapframe now goes with the new table. */
  function FrameMoved(s: State, space: nat, next: nat): State
    requires Frame(space) in s.own
  {
    s.(own := (s.own - {Frame(space)})[Frame(next) := s.own[Frame(space)]])
  }

  lemma FrameMovedKeeps(s: State, sz: map<nat, nat>, space: nat, next: nat, e: Eager)
    requires Sound(s, sz) && Refines(s, e) && Frame(space) in s.own && Frame(next) !in s.own && next in sz
    ensures Sound(FrameMoved(s, space, next), sz) && Refines(FrameMoved(s, space, next), e)
  {
    hide Inv, Refines, Bounded, Fits;
    var pa := s.own[Frame(space)];
    OwnPage(s, Frame(space));
    TakeOwnInv(s, Frame(space));
    var t := TakeOwn(s, Frame(space));
    PutOwnInv(t, Frame(next), pa);
    assert s.extra + multiset{pa} - multiset{pa} == s.extra;
    assert PutOwn(t, Frame(next), pa) == FrameMoved(s, space, next);
    OwnRefines(s, FrameMoved(s, space, next).own, s.extra, e);
    assert FrameMoved(s, space, next) == s.(own := FrameMoved(s, space, next).own, extra := s.extra);
  }

  /** What the old space leaves: all of it is gone, and nothing of the new one. */
  lemma Committed(s: State, t: State, next: nat, space: nat, hs: seq<Header>)
    requires Sized(s) && Sized(t) && Laid(s, next, Guard(hs) + 1 + USERSTACK, hs) && space != next
    requires forall k :: k in t.leaf <==> k in s.leaf && k.space != space
    requires forall k :: k in t.leaf ==> t.perm[k] == s.perm[k]
    ensures forall v: nat :: v < Guard(hs) + 1 + USERSTACK ==>
              UPage(next, v) in t.leaf && t.perm[UPage(next, v)] == ImagePerm(hs, v)
  {
    hide SizeOf, PagesOf, ImagePerm;
    forall v: nat | v < Guard(hs) + 1 + USERSTACK
      ensures UPage(next, v) in t.leaf && t.perm[UPage(next, v)] == ImagePerm(hs, v)
    {
      assert InRange(UPage(next, v), next, 0, Guard(hs) + 1 + USERSTACK);
    }
  }

  /** The commit: the trapframe goes to the new table, and the old one is freed. */
  method Commit(k: Memory, space: nat, next: nat, ghost hs: seq<Header>, ghost e: Eager, ghost f: Eager,
                ghost s0: State, ghost sz0: map<nat, nat>)
    requires Built(s0, sz0, k.s, k.sz, next, e, f, hs) && space in sz0
    modifies k`s, k`sz
    ensures k.Valid() && k.sz == (sz0 - {space})[next := Top(hs)] && k.s.shm == s0.shm && k.s.extra == s0.extra
    ensures Refines(k.s, Dropped(f, space, 0, PagesOf(sz0[space])))
    ensures k.s.tainted == Cleaned(s0.tainted, space, 0, PagesOf(sz0[space]))
    ensures Sized(k.s) && forall v: nat :: v < Guard(hs) + 1 + USERSTACK ==>
              UPage(next, v) in k.s.leaf && k.s.perm[UPage(next, v)] == ImagePerm(hs, v)
    ensures Frame(next) in k.s.own <==> Frame(space) in s0.own
  {
    hide Inv, Refines, Bounded, Fits, Owned, SameElsewhere, Laid, Top, Guard, Dropped, Cleaned, PagesOf;
    ghost var s := k.s;
    RefinesSized(s, f);
    if Frame(space) in k.s.own {
      FrameMovedKeeps(k.s, k.sz, space, next, f);
      k.s := FrameMoved(k.s, space, next);
    }
    k.FreeSpace(space, f);
    RefinesSized(k.s, Dropped(f, space, 0, PagesOf(sz0[space])));
    Committed(s, k.s, next, space, hs);
  }

  /** A space that does not exist reads as zeroes. */
  lemma Nowhere(s0: State, sz0: map<nat, nat>, s: State, next: nat, e: Eager, f: Eager)
    requires Refines(s0, e) && Bounded(s0.leaf, sz0) && next !in sz0 && s.tainted == s0.tainted
    requires Refines(s, f) && (forall k :: k in s.leaf ==> k.space != next)
    requires forall x: UPage :: x.space != next ==> f(x) == e(x)
    ensures Refines(s, e)
  {
    NobodyIn(s0.leaf, sz0, next);
    forall x | Private(s, x) ensures f(x) == e(x) {
      if x.space == next {
        assert View(s, x) == f(x) && Private(s0, x) && View(s0, x) == e(x);
      }
    }
    hide Refines, View;
    SameEager(s, f, e);
  }

  lemma SameMap<T>(m: map<UPage, T>, n: map<UPage, T>)
    requires forall k :: k in m <==> k in n
    requires forall k :: k in m ==> m[k] == n[k]
    ensures m == n
  {
  }

  /** The way out for a program that cannot be run: the new space is gone, and
      everything is as it was. */
  method GiveUp(k: Memory, next: nat, ghost n: nat, ghost e: Eager, ghost f: Eager, ghost s0: State,
                ghost sz0: map<nat, nat>)
    requires Undoable(s0, sz0, k.s, k.sz, next, n, e, f)
    requires Refines(s0, e) && Bounded(s0.leaf, sz0)
    modifies k`s, k`sz
    ensures k.Valid() && k.sz == sz0 && Refines(k.s, e)
    ensures k.s.leaf == s0.leaf && k.s.perm == s0.perm
    ensures k.s.shm == s0.shm && k.s.extra == s0.extra && k.s.tainted == s0.tainted
  {
    hide Inv, Refines, Bounded, Fits, Owned, Cleaned, PagesOf;
    ghost var s := k.s;
    NobodyIn(s0.leaf, sz0, next);
    CleanedNone(s0, next, 0, PagesOf(n));
    k.FreeSpace(next, f);
    ghost var d := Dropped(f, next, 0, PagesOf(n));
    RefinesSized(k.s, d);
    Nowhere(s0, sz0, k.s, next, e, d);
    SameMap(k.s.leaf, s0.leaf);
    SameMap(k.s.perm, s0.perm);
  }

  lemma NewOwned(a: map<Owner, Pa>, b: map<Owner, Pa>, sz: map<nat, nat>, next: nat)
    requires Owned(a, sz) && next !in sz
    requires b.Keys == a.Keys + {Root(next), MidOf(next, TRAPFRAME), LastOf(next, TRAPFRAME)}
    ensures Owned(b, sz[next := 0]) && AddsFor(a, b, next) && Frame(next) !in a
  {
    assert Belongs(Frame(next), next);
  }

  /** proc_pagetable has made an empty space. */
  lemma Empty(s0: State, sz0: map<nat, nat>, s: State, next: nat, e: Eager)
    requires Sound(s0, sz0) && next !in sz0 && Inv(s) && Refines(s, e) && OnlyOwn(s0, s) && Grows(s0.own, s.own)
    requires s.own.Keys == s0.own.Keys + {Root(next), MidOf(next, TRAPFRAME), LastOf(next, TRAPFRAME)}
    requires |s.free| == |s0.free| - 3 && Refines(s0, e)
    ensures Loading(s0, sz0, s, sz0[next := 0], next, e, [])
  {
    hide Inv, Refines, Owned, AddsFor, Bounded, Grows;
    NewOwned(s0.own, s.own, sz0, next);
    RefinesSized(s, e);
    RefinesSized(s0, e);
    NewBounded(s0.leaf, sz0, next);
  }

  lemma NewBounded(leaf: map<UPage, Pa>, sz: map<nat, nat>, next: nat)
    requires Bounded(leaf, sz) && next !in sz
    ensures Bounded(leaf, sz[next := 0])
  {
  }

  /** kexec's memory: the process that had space has the program in next instead,
      in a space of the program's size that holds its segments, its arguments and
      zeroes, with the segments' permissions, and below the stack a guard page
      that the process cannot reach; the old space is gone. Or nothing has
      changed: exactly if the program cannot be run, or for want of memory. */
  method Kexec(k: Memory, space: nat, next: nat, hs: seq<Header>, argv: seq<seq<nat>>, ghost e: Eager)
    returns (ok: bool, sp: int)
    requires k.Valid() && Refines(k.s, e) && space in k.sz && next !in k.sz && |argv| < MAXARG
    modifies k`s, k`sz
    ensures k.Valid() && k.s.shm == old(k.s).shm && k.s.extra == old(k.s).extra
    ensures ok ==> Runs(hs, argv) && sp == VectorSp(Top(hs), argv)
    ensures ok ==> k.sz == (old(k.sz) - {space})[next := Top(hs)]
    ensures ok ==> Refines(k.s, Dropped(Image(e, next, hs, argv), space, 0, PagesOf(old(k.sz)[space])))
    ensures ok ==> k.s.tainted == Cleaned(old(k.s).tainted, space, 0, PagesOf(old(k.sz)[space]))
    ensures ok ==> Sized(k.s) && Permits(k.s, next, hs)
    ensures ok ==> sp >= 0 && exists f :: Sees(k.s, next, f) && Holds(f, next, hs) && Passes(f, next, sp, argv)
    ensures ok ==> (Frame(next) in k.s.own <==> Frame(space) in old(k.s).own)
    ensures !ok ==> !Runs(hs, argv) || |old(k.s).free| < 3 + 3 * (Guard(hs) + 1 + USERSTACK)
    ensures !ok ==> k.sz == old(k.sz) && Refines(k.s, e) && k.s.tainted == old(k.s).tainted
    ensures !ok ==> k.s.leaf == old(k.s).leaf && k.s.perm == old(k.s).perm
  {
    hide Inv, Refines, Bounded, Fits, Owned, Loading, Undoable, Loads, Guard, Top, Dropped, Cleaned, Laid, Image;
    hide ImagePerm, Permits, Sees, Holds, Passes, PagesOf;
    sp := 0;
    ghost var s0, sz0 := k.s, k.sz;
    NobodyIn(k.s.leaf, k.sz, next);
    NoneOwned(k.s.own, k.sz, next);
    PagesConserved(k.s);
    ok := k.NewTable(next, e);
    if !ok {
      return;
    }
    Empty(s0, sz0, k.s, next, e);
    k.sz := k.sz[next := 0];
    ghost var n, f;
    ok, n, f := LoadAll(k, next, hs, e, s0, sz0);
    if !ok {
      GiveUp(k, next, n, e, f, s0, sz0);
      return;
    }
    LoadingLoads(s0, sz0, k.s, k.sz, next, e, hs);
    ok := AllocStack(k, next, hs, e, s0, sz0);
    if !ok {
      GiveUp(k, next, Guard(hs) * PGSIZE, e, Loaded(e, next, hs), s0, sz0);
      return;
    }
    ok, sp, f := PushArgs(k, next, hs, argv, e, s0, sz0);
    if !ok {
      GiveUp(k, next, Top(hs), e, f, s0, sz0);
      return;
    }
    Commit(k, space, next, hs, e, f, s0, sz0);
    PermitsFrom(k.s, next, hs);
    ImageSeen(s0, sz0, k.s, k.sz, space, next, hs, argv, e);
  }

  /** What the process with this space reads is f. */
  ghost predicate Sees(s: State, space: nat, f: Eager) {
    Sized(s) && forall a: nat :: Seen(s, space, a) == ByteAt(f, space, a)
  }

  /** The permissions of the program, from its headers: a page that segments
      reach can be read, and written or executed as the first of them says; above
      those pages lie one that is no user page, and the stack, which can be
      written and not executed. */
  ghost predicate Permits(s: State, next: nat, hs: seq<Header>)
    requires Sized(s)
  {
    && (forall v: nat, j: nat :: FirstReaches(hs, j, v) ==>
          && v < Guard(hs) && UPage(next, v) in s.leaf
          && s.perm[UPage(next, v)] == Perm(true, hs[j].w, hs[j].x, true, false))
    && (forall v: nat :: v < Guard(hs) <==> InProgram(hs, v))
    && var guard, stack := UPage(next, Guard(hs)), UPage(next, Guard(hs) + 1);
    && guard in s.leaf && s.perm[guard] == Perm(true, true, false, false, false)
    && stack in s.leaf && s.perm[stack] == Perm(true, true, false, true, false)
  }

  lemma PermitsFrom(s: State, next: nat, hs: seq<Header>)
    requires Sized(s) && forall v: nat :: v < Guard(hs) + 1 + USERSTACK ==>
               UPage(next, v) in s.leaf && s.perm[UPage(next, v)] == ImagePerm(hs, v)
    ensures Permits(s, next, hs)
  {
    hide Guard, PermAt, InProgram;
    forall v: nat, j: nat | FirstReaches(hs, j, v)
      ensures v < Guard(hs) && UPage(next, v) in s.leaf
      ensures s.perm[UPage(next, v)] == Perm(true, hs[j].w, hs[j].x, true, false)
    {
      FirstPerm(hs, j, v);
    }
    forall v: nat ensures v < Guard(hs) <==> InProgram(hs, v) {
      GuardReached(hs, v);
    }
  }

  lemma ImageSeen(s0: State, sz0: map<nat, nat>, s: State, sz: map<nat, nat>, space: nat, next: nat, hs: seq<Header>,
                  argv: seq<seq<nat>>, e: Eager)
    requires Refines(s0, e) && Bounded(s0.leaf, sz0) && next !in sz0 && space in sz0 && Runs(hs, argv)
    requires Refines(s, Dropped(Image(e, next, hs, argv), space, 0, PagesOf(sz0[space])))
    requires s.tainted == Cleaned(s0.tainted, space, 0, PagesOf(sz0[space]))
    requires Fits(sz) && next in sz && sz[next] == Top(hs)
    ensures var f := Image(e, next, hs, argv);
      VectorSp(Top(hs), argv) >= 0 && Sees(s, next, f) && Holds(f, next, hs) &&
      Passes(f, next, VectorSp(Top(hs), argv), argv)
  {
    hide Runs, Image, Holds, Passes, Top;
    NobodyIn(s0.leaf, sz0, next);
    NoneThere(s0, next, e);
    RunsSp(hs, argv);
    EightBytes();
    ImagePasses(e, next, hs, argv);
    ImageHolds(e, next, hs, argv);
    var f, d := Image(e, next, hs, argv), Dropped(Image(e, next, hs, argv), space, 0, PagesOf(sz0[space]));
    forall a: nat ensures Seen(s, next, a) == ByteAt(f, next, a) {
      var x := UPage(next, a / PGSIZE);
      assert Private(s, x) && View(s, x) == d(x) && d(x) == f(x);
    }
  }

  lemma RunsSp(hs: seq<Header>, argv: seq<seq<nat>>)
    requires Runs(hs, argv)
    ensures VectorSp(Top(hs), argv) >= 0
  {
  }

  lemma EightBytes()
    ensures TRAPFRAME * PGSIZE < Power(8)
  {
    assert Power(8) == 256 * Power(7) && Power(7) == 256 * Power(6) && Power(6) == 256 * Power(5);
    assert Power(5) == 256 * Power(4) && Power(4) == 256 * Power(3) && Power(3) == 256 * Power(2);
    assert Power(2) == 256 * Power(1) && Power(1) == 256 * Power(0);
  }

  /** A space that nobody has mapped reads as zeroes. */
  lemma NoneThere(s: State, next: nat, e: Eager)
    requires Refines(s, e) && forall k :: k in s.leaf ==> k.space != next
    ensures forall a: nat :: ByteAt(e, next, a) == 0
  {
    forall a: nat ensures ByteAt(e, next, a) == 0 {
      var x := UPage(next, a / PGSIZE);
      assert Private(s, x) && View(s, x) == ZeroPage();
    }
  }

  lemma LoadingLoads(s0: State, sz0: map<nat, nat>, s: State, sz: map<nat, nat>, next: nat, e: Eager, hs: seq<Header>)
    requires Loading(s0, sz0, s, sz, next, e, hs)
    ensures Loads(hs)
  {
  }
}
