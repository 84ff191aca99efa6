/** Copy-on-write memory against eager copying (kernel/vm.c): the memory each
    process sees is compared with a machine in which every page of every
    process is its own, and fork copies them all. */
module CopyOnWrite {
  import opened Common
  import opened PageRefs

  /** The eager machine: the contents of every page of every address space.
      A page that was never written reads as zeroes. */
  type Eager = UPage -> Bytes

  function ZeroPage(): Bytes {
    Fill(0)
  }

  /** What a process reads in page k; a page not mapped yet reads as zeroes
      once it is faulted in. */
  function View(s: State, k: UPage): Bytes
    requires Sized(s)
  {
    if k in s.leaf then s.pages[s.leaf[k]] else ZeroPage()
  }

  /** The mapping does not stem from shm_open. */
  predicate Private(s: State, k: UPage) {
    k !in s.tainted
  }

  ghost predicate Refines(s: State, e: Eager) {
    Sized(s) && forall k :: Private(s, k) ==> View(s, k) == e(k)
  }

  // ---- the eager machine's operations ----

  function Set(e: Eager, k: UPage, b: Bytes): Eager {
    (x: UPage) => if x == k then b else e(x)
  }

  /** Eager fork copies the first n pages of the parent to the child. */
  function Copied(e: Eager, parent: nat, child: nat, n: nat): Eager {
    (x: UPage) => CopiedPage(e, parent, child, n, x)
  }

  function CopiedPage(e: Eager, parent: nat, child: nat, n: nat, x: UPage): Bytes {
    if x.space == child && x.vpn < n then e(UPage(parent, x.vpn)) else e(x)
  }

  /** Pages lo to hi of the space become unmapped. */
  function Dropped(e: Eager, space: nat, lo: nat, hi: nat): Eager {
    (x: UPage) => if x.space == space && lo <= x.vpn < hi then ZeroPage() else e(x)
  }

  /** The bytes src are stored at address va of the space. */
  function Stored(e: Eager, space: nat, va: nat, src: seq<nat>): Eager {
    (x: UPage) => if x.space == space then StoredPage(e(x), x.vpn, va, src) else e(x)
  }

  function StoredPage(b: Bytes, vpn: nat, va: nat, src: seq<nat>): Bytes {
    seq(PGSIZE, i requires 0 <= i < PGSIZE =>
      if va <= vpn * PGSIZE + i < va + |src| then src[vpn * PGSIZE + i - va] else b[i])
  }

  /** Page contents with chunk written at offset off. */
  function Patched(b: Bytes, off: nat, chunk: seq<nat>): Bytes {
    seq(PGSIZE, i requires 0 <= i < PGSIZE => if off <= i < off + |chunk| then chunk[i - off] else b[i])
  }

  lemma PatchedThere(b: Bytes, off: nat, chunk: seq<nat>)
    requires off + |chunk| <= PGSIZE
    ensures Patched(b, off, chunk)[off..off + |chunk|] == chunk
  {
  }

  // ---- single bytes ----

  /** The byte that a process with this space reads at va. */
  function Seen(s: State, space: nat, va: nat): nat
    requires Sized(s)
  {
    View(s, UPage(space, va / PGSIZE))[va % PGSIZE]
  }

  function ByteAt(e: Eager, space: nat, va: nat): nat {
    e(UPage(space, va / PGSIZE))[va % PGSIZE]
  }

  /** From s to t the bytes src have come to be at va of the space, and no other
      byte has changed; of pages that stem from shm_open nothing is said. */
  ghost predicate Stores(s: State, t: State, space: nat, va: nat, src: seq<nat>) {
    && Sized(s) && Sized(t)
    && forall p: nat, a: nat :: Private(t, UPage(p, a / PGSIZE)) ==>
         Seen(t, p, a) == if p == space && va <= a < va + |src| then src[a - va] else Seen(s, p, a)
  }

  /** After a store the bytes stored are there, and all others are as before. */
  lemma StoredByte(e: Eager, space: nat, va: nat, src: seq<nat>, p: nat, a: nat)
    ensures ByteAt(Stored(e, space, va, src), p, a) ==
            if p == space && va <= a < va + |src| then src[a - va] else ByteAt(e, p, a)
  {
    var x := UPage(p, a / PGSIZE);
    assert x.vpn * PGSIZE + a % PGSIZE == a;
    assert Stored(e, space, va, src)(x) == if p == space then StoredPage(e(x), x.vpn, va, src) else e(x);
  }

  lemma StoresIs(s: State, t: State, e: Eager, space: nat, va: nat, src: seq<nat>)
    requires Refines(s, e) && Refines(t, Stored(e, space, va, src)) && t.tainted == s.tainted
    ensures Stores(s, t, space, va, src)
  {
    hide StoredPage, Stored;
    forall p: nat, a: nat | Private(t, UPage(p, a / PGSIZE))
      ensures Seen(t, p, a) == if p == space && va <= a < va + |src| then src[a - va] else Seen(s, p, a)
    {
      StoredByte(e, space, va, src, p, a);
      assert Private(s, UPage(p, a / PGSIZE));
    }
  }

  lemma SeenAs(s: State, e: Eager, space: nat, va: nat)
    requires Refines(s, e)
    ensures Private(s, UPage(space, va / PGSIZE)) ==> Seen(s, space, va) == ByteAt(e, space, va)
  {
  }

  // ---- the elementary changes, seen by the processes ----

  /** The user-visible part of the state is untouched: entries, shared pages,
      and every page that had a reference. */
  ghost predicate Quiet(s: State, t: State) {
    && Sized(s) && Sized(t)
    && t.leaf == s.leaf && t.perm == s.perm && t.shm == s.shm
    && t.shared == s.shared && t.extra == s.extra && t.tainted == s.tainted
    && (forall o :: o in s.own ==> o in t.own && t.own[o] == s.own[o])
    && (forall pa: Pa :: s.ref[pa] > 0 ==> t.ref[pa] == s.ref[pa] && t.pages[pa] == s.pages[pa])
  }

  lemma QuietRefines(s: State, t: State, e: Eager)
    requires Inv(s) && Quiet(s, t) && Refines(s, e)
    ensures Refines(t, e)
  {
    forall k | Private(t, k) ensures View(t, k) == e(k) {
      if k in s.leaf {
        MappedPage(s, k);
      }
      assert Private(s, k);
    }
  }

  lemma QuietAlloc(s: State, o: Owner, b: Bytes)
    requires Inv(s) && |s.free| > 0 && o !in s.own
    ensures var pa := s.free[0]; var t := PutOwn(Overwrite(Alloc(s), pa, b), o, pa);
      Inv(t) && Quiet(s, t)
  {
    AllocInv(s);
    OverwriteInv(Alloc(s), s.free[0], b);
    PutOwnInv(Overwrite(Alloc(s), s.free[0], b), o, s.free[0]);
  }

  lemma AllocRefines(s: State, e: Eager)
    requires Inv(s) && |s.free| > 0 && Refines(s, e)
    ensures Refines(Alloc(s), e)
  {
    AllocInv(s);
    Unheld(s, s.free[0]);
    forall k | Private(Alloc(s), k) ensures View(Alloc(s), k) == e(k) {
      assert Private(s, k);
    }
  }

  lemma FreeRefines(s: State, pa: Pa, e: Eager)
    requires Inv(s) && pa in s.extra && Refines(s, e)
    ensures s.ref[pa] > 0 && Refines(Free(s, pa), e)
  {
    CountAt(s, pa);
    hide Inv, Uses;
    if s.ref[pa] == 1 {
      Unheld(s, pa);
    }
    forall k | Private(Free(s, pa), k) ensures View(Free(s, pa), k) == e(k) {
      FreeView(s, pa, k);
      assert Private(s, k);
    }
  }

  lemma FreeView(s: State, pa: Pa, k: UPage)
    requires Sized(s) && s.ref[pa] > 0 && (s.ref[pa] == 1 && k in s.leaf ==> s.leaf[k] != pa)
    ensures Sized(Free(s, pa)) && View(Free(s, pa), k) == View(s, k)
  {
  }

  /** The kernel fills a page that only it holds. */
  lemma OverwriteRefines(s: State, pa: Pa, b: Bytes, e: Eager)
    requires Inv(s) && s.ref[pa] == s.extra[pa] && Refines(s, e)
    ensures Refines(Overwrite(s, pa, b), e)
  {
    Unheld(s, pa);
    forall k | Private(Overwrite(s, pa, b), k) ensures View(Overwrite(s, pa, b), k) == e(k) {
      assert Private(s, k);
    }
  }

  lemma MapLeafRefines(s: State, k: UPage, pa: Pa, p: Perm, e: Eager)
    requires Refines(s, e) && k !in s.leaf && (s.pages[pa] == ZeroPage() || pa in s.shared)
    ensures Refines(MapLeaf(s, k, pa, p), e)
  {
  }

  lemma UnmapLeafRefines(s: State, k: UPage, e: Eager)
    requires Refines(s, e) && k in s.leaf
    ensures Refines(UnmapLeaf(s, k), Set(e, k, ZeroPage()))
  {
  }

  /** Sharing one page shows the child what copying it would. */
  lemma ShareLeafRefines(s: State, k: UPage, child: UPage, e: Eager)
    requires Refines(s, e) && k in s.leaf && child !in s.leaf
    ensures Refines(ShareLeaf(s, k, child), Set(e, child, e(k)))
  {
  }

  /** Switching an entry to a faithful copy shows nothing. */
  lemma RepointRefines(s: State, k: UPage, mem: Pa, e: Eager)
    requires Refines(s, e) && k in s.leaf && s.pages[mem] == s.pages[s.leaf[k]]
    ensures Refines(Repoint(s, k, mem), e)
  {
  }

  /** A store through a writable entry, or by the kernel to a page with one
      reference, is seen by its own process only. */
  lemma WriteRefines(s: State, k: UPage, b: Bytes, e: Eager)
    requires Inv(s) && Refines(s, e) && k in s.leaf && (s.perm[k].w || s.ref[s.leaf[k]] == 1)
    ensures Refines(Overwrite(s, s.leaf[k], b), Set(e, k, b))
  {
    var t := Overwrite(s, s.leaf[k], b);
    if s.leaf[k] !in s.shared || s.ref[s.leaf[k]] == 1 {
      SoleHolder(s, k);
    }
    forall x | Private(t, x) ensures View(t, x) == Set(e, k, b)(x) {
      assert Private(s, x);
    }
  }

  lemma OwnRefines(s: State, own: map<Owner, Pa>, extra: multiset<Pa>, e: Eager)
    requires Refines(s, e)
    ensures Refines(s.(own := own, extra := extra), e)
  {
  }

  lemma ShmRefines(s: State, shm: map<nat, Pa>, ref: seq<nat>, extra: multiset<Pa>, shared: set<Pa>, e: Eager)
    requires Refines(s, e) && |ref| == NPAGES && s.shared <= shared
    ensures Refines(s.(shm := shm, ref := ref, extra := extra, shared := shared), e)
  {
  }

  /** Eager states that agree everywhere are interchangeable. */
  lemma SameEager(s: State, e: Eager, f: Eager)
    requires Refines(s, e) && forall k :: Private(s, k) ==> e(k) == f(k)
    ensures Refines(s, f)
  {
  }

  /** Writing within one page is a store of the same bytes. */
  lemma PatchedIsStored(s: State, e: Eager, k: UPage, off: nat, chunk: seq<nat>)
    requires Refines(s, Set(e, k, Patched(e(k), off, chunk))) && off + |chunk| <= PGSIZE
    ensures Refines(s, Stored(e, k.space, k.vpn * PGSIZE + off, chunk))
  {
    hide StoredPage, Patched;
    forall x | Private(s, x)
      ensures Set(e, k, Patched(e(k), off, chunk))(x) == Stored(e, k.space, k.vpn * PGSIZE + off, chunk)(x)
    {
      PatchedPage(e(x), x.vpn, k.vpn, off, chunk);
    }
  }

  lemma PatchedPage(b: Bytes, vpn: nat, at: nat, off: nat, chunk: seq<nat>)
    requires off + |chunk| <= PGSIZE
    ensures StoredPage(b, vpn, at * PGSIZE + off, chunk) == if vpn == at then Patched(b, off, chunk) else b
  {
    if vpn < at {
      assert (vpn + 1) * PGSIZE <= at * PGSIZE;
    } else if vpn > at {
      assert (at + 1) * PGSIZE <= vpn * PGSIZE;
    }
  }

  /** Two adjacent stores are one. */
  lemma StoredTwice(s: State, e: Eager, space: nat, va: nat, src: seq<nat>, n: nat, m: nat)
    requires n <= m <= |src|
    requires Refines(s, Stored(Stored(e, space, va, src[..n]), space, va + n, src[n..m]))
    ensures Refines(s, Stored(e, space, va, src[..m]))
  {
  }

  lemma StoredNothing(s: State, e: Eager, space: nat, va: nat)
    requires Refines(s, e)
    ensures Refines(s, Stored(e, space, va, []))
  {
  }

  // ---- fork ----

  lemma CopiedNone(s: State, e: Eager, parent: nat, child: nat)
    requires Refines(s, e)
    ensures Refines(s, Copied(e, parent, child, 0))
  {
  }

  /** One more page copied. */
  lemma CopiedStep(s: State, e: Eager, parent: nat, child: nat, v: nat)
    requires parent != child
    requires var f := Copied(e, parent, child, v); Refines(s, Set(f, UPage(child, v), f(UPage(parent, v))))
    ensures Refines(s, Copied(e, parent, child, v + 1))
  {
  }

  /** A page that neither side has mapped reads as zeroes on both. */
  lemma CopiedHole(s: State, e: Eager, parent: nat, child: nat, v: nat)
    requires parent != child && Refines(s, Copied(e, parent, child, v))
    requires UPage(parent, v) !in s.leaf && UPage(child, v) !in s.leaf
    ensures Refines(s, Copied(e, parent, child, v + 1))
  {
    var f := Copied(e, parent, child, v);
    assert Private(s, UPage(parent, v)) && Private(s, UPage(child, v));
    forall x | Private(s, x) ensures f(x) == Copied(e, parent, child, v + 1)(x) {
    }
  }
}
