/** Physical pages and who holds them (kernel/kalloc.c, kernel/vm.c,
    kernel/shm.c, kernel/brd.c): one state, its invariant, and the elementary
    changes that the kernel's operations are made of. */
module PageRefs {
  import opened Common

  const PGSIZE: nat := 4096
  const SHM_MAX: nat := 8
  const RD_PAGES: nat := 65536

  /** A physical page number, counted from KERNBASE. */
  type Pa = x: nat | x < NPAGES witness 0

  /** The contents of a page. */
  type Bytes = b: seq<nat> | |b| == PGSIZE witness seq(PGSIZE, _ => 0)

  /** Page vpn of address space space. */
  datatype UPage = UPage(space: nat, vpn: nat)

  /** PTE_R, PTE_W, PTE_X, PTE_U and PTE_C of a valid leaf entry. */
  datatype Perm = Perm(r: bool, w: bool, x: bool, u: bool, c: bool)

  /** An index into rd_dev.pages. */
  type RdIndex = x: nat | x < RD_PAGES witness 0

  /** A page the kernel keeps for itself: a page-table page, named by the part
      of the address space it covers (the root, a level-1 page for 2^18 user
      pages, a level-0 page for 512), a process's trapframe, a ramdisk page, or
      anything else (the kernel image, pipes). */
  datatype Owner =
    | Root(space: nat) | Mid(space: nat, i: nat) | Last(space: nat, i: nat)
    | Frame(space: nat)
    | RdSlot(slot: RdIndex)
    | Other(i: nat)

  datatype State = State(
    pages: seq<Bytes>,
    ref: seq<nat>,               // ref_count
    free: seq<Pa>,               // kmem.freelist
    leaf: map<UPage, Pa>,        // user leaf entries: the page they point to
    perm: map<UPage, Perm>,
    own: map<Owner, Pa>,
    shm: map<nat, Pa>,           // shm_table.frames[i].pa
    extra: multiset<Pa>,         // references that no table records: pages in the
                                 // running code's hands, and leaked references
    shared: set<Pa>,             // pages that have entered shm_table and are still in use
    tainted: set<UPage>)         // mappings that came from shm_open, and their copies in children

  function Fill(b: nat): Bytes {
    seq(PGSIZE, _ => b)
  }

  // ---- counting references ----

  ghost function Uses<K(!new)>(m: map<K, Pa>, pa: Pa): nat {
    |set k | k in m && m[k] == pa|
  }

  lemma UsesNone<K(!new)>(m: map<K, Pa>, pa: Pa)
    requires m == map[]
    ensures Uses(m, pa) == 0
  {
  }

  lemma UsesPut<K(!new)>(m: map<K, Pa>, k: K, v: Pa)
    requires k !in m
    ensures forall x :: Uses(m[k := v], x) == Uses(m, x) + if x == v then 1 else 0
  {
    var n := m[k := v];
    forall x ensures Uses(n, x) == Uses(m, x) + if x == v then 1 else 0 {
      var before := set j | j in m && m[j] == x;
      var after := set j | j in n && n[j] == x;
      if x == v {
        assert after == before + {k};
      } else {
        assert after == before;
      }
    }
  }

  lemma UsesDrop<K(!new)>(m: map<K, Pa>, k: K)
    requires k in m
    ensures forall x :: Uses(m - {k}, x) == Uses(m, x) - if x == m[k] then 1 else 0
  {
    UsesPut(m - {k}, k, m[k]);
    assert (m - {k})[k := m[k]] == m;
  }

  lemma UsesMove<K(!new)>(m: map<K, Pa>, k: K, v: Pa)
    requires k in m
    ensures forall x :: Uses(m[k := v], x) == Uses(m, x) - (if x == m[k] then 1 else 0) + (if x == v then 1 else 0)
  {
    UsesDrop(m, k);
    UsesPut(m - {k}, k, v);
    assert (m - {k})[k := v] == m[k := v];
  }

  /** Each holder counts, and two distinct holders count twice. */
  lemma UsesHolder<K(!new)>(m: map<K, Pa>, k: K)
    requires k in m
    ensures Uses(m, m[k]) >= 1
    ensures Uses(m, m[k]) == 1 ==> forall j :: j in m && m[j] == m[k] ==> j == k
  {
    var holders := set j | j in m && m[j] == m[k];
    assert k in holders;
    forall j | j in m && m[j] == m[k] && j != k ensures Uses(m, m[k]) >= 2 {
      assert {k, j} <= holders;
      assert holders == {k, j} + (holders - {k, j});
    }
  }

  /** The number of places that record a reference to page pa. */
  ghost function Holders(leaf: map<UPage, Pa>, own: map<Owner, Pa>, shm: map<nat, Pa>, pa: Pa): nat {
    Uses(leaf, pa) + Uses(own, pa) + Uses(shm, pa)
  }

  // ---- the invariant ----

  ghost predicate Sized(s: State) {
    |s.pages| == NPAGES && |s.ref| == NPAGES && s.leaf.Keys == s.perm.Keys && s.tainted <= s.leaf.Keys
  }

  /** Every reference count is exact. */
  ghost predicate Counted(ref: seq<nat>, leaf: map<UPage, Pa>, own: map<Owner, Pa>, shm: map<nat, Pa>,
                          extra: multiset<Pa>) {
    |ref| == NPAGES && forall pa: Pa :: ref[pa] == Holders(leaf, own, shm, pa) + extra[pa]
  }

  /** The free list holds exactly the pages with count 0, each once. */
  ghost predicate FreeList(ref: seq<nat>, free: seq<Pa>) {
    && |ref| == NPAGES
    && (forall i, j :: 0 <= i < j < |free| ==> free[i] != free[j])
    && (forall pa: Pa :: pa in free <==> ref[pa] == 0)
  }

  /** Pages the kernel keeps for itself have no other holder. */
  ghost predicate Exclusive(ref: seq<nat>, own: map<Owner, Pa>) {
    |ref| == NPAGES && forall k :: k in own ==> ref[own[k]] == 1
  }

  /** The heart of copy-on-write: a private page that some process can write
      without a fault has one reference. */
  ghost predicate WritableAlone(ref: seq<nat>, leaf: map<UPage, Pa>, perm: map<UPage, Perm>, shared: set<Pa>) {
    && |ref| == NPAGES
    && forall k :: k in leaf && k in perm && perm[k].w && leaf[k] !in shared ==> ref[leaf[k]] == 1
  }

  ghost predicate SharedLive(ref: seq<nat>, shm: map<nat, Pa>, shared: set<Pa>) {
    && |ref| == NPAGES
    && (forall i :: i in shm ==> i < SHM_MAX && shm[i] in shared)
    && (forall pa :: pa in shared ==> ref[pa] > 0)
  }

  ghost predicate TaintCovers(leaf: map<UPage, Pa>, shared: set<Pa>, tainted: set<UPage>) {
    forall k :: k in leaf && leaf[k] in shared ==> k in tainted
  }

  ghost predicate Inv(s: State) {
    && Sized(s)
    && Counted(s.ref, s.leaf, s.own, s.shm, s.extra)
    && FreeList(s.ref, s.free)
    && Exclusive(s.ref, s.own)
    && WritableAlone(s.ref, s.leaf, s.perm, s.shared)
    && SharedLive(s.ref, s.shm, s.shared)
    && TaintCovers(s.leaf, s.shared, s.tainted)
  }

  // ---- elementary changes ----

  /** kalloc on a non-empty free list. */
  function Alloc(s: State): State
    requires |s.free| > 0 && Sized(s)
  {
    var pa := s.free[0];
    s.(free := s.free[1..], ref := s.ref[pa := 1], pages := s.pages[pa := Fill(5)],
       extra := s.extra + multiset{pa})
  }

  /** kfree of a reference the caller owns. */
  function Free(s: State, pa: Pa): State
    requires Sized(s) && s.ref[pa] > 0
  {
    var t := s.(ref := s.ref[pa := s.ref[pa] - 1], extra := s.extra - multiset{pa});
    if s.ref[pa] > 1 then t
    else t.(free := [pa] + s.free, pages := s.pages[pa := Fill(1)], shared := s.shared - {pa})
  }

  function PutOwn(s: State, t: Owner, pa: Pa): State {
    s.(own := s.own[t := pa], extra := s.extra - multiset{pa})
  }

  function TakeOwn(s: State, t: Owner): State
    requires t in s.own
  {
    s.(own := s.own - {t}, extra := s.extra + multiset{s.own[t]})
  }

  /** The caller's own page is overwritten. */
  function Overwrite(s: State, pa: Pa, b: Bytes): State
    requires Sized(s)
  {
    s.(pages := s.pages[pa := b])
  }

  function MapLeaf(s: State, k: UPage, pa: Pa, p: Perm): State {
    s.(leaf := s.leaf[k := pa], perm := s.perm[k := p], extra := s.extra - multiset{pa},
       tainted := if pa in s.shared then s.tainted + {k} else s.tainted)
  }

  function UnmapLeaf(s: State, k: UPage): State
    requires k in s.leaf
  {
    s.(leaf := s.leaf - {k}, perm := s.perm - {k}, extra := s.extra + multiset{s.leaf[k]},
       tainted := s.tainted - {k})
  }

  /** The permissions fork gives both copies of a page. */
  function CowPerm(s: State, k: UPage): Perm
    requires k in s.leaf && k in s.perm
  {
    if s.perm[k].w && s.leaf[k] !in s.shm.Values then s.perm[k].(w := false, c := true) else s.perm[k]
  }

  /** Fork's handling of one page: the parent's entry loses write permission
      unless the page is in shm_table, and the child maps the same page. */
  function ShareLeaf(s: State, k: UPage, child: UPage): State
    requires k in s.leaf && k in s.perm && Sized(s)
  {
    var p, pa := CowPerm(s, k), s.leaf[k];
    s.(perm := s.perm[k := p][child := p], leaf := s.leaf[child := pa], ref := s.ref[pa := s.ref[pa] + 1],
       tainted := if k in s.tainted then s.tainted + {child} else s.tainted)
  }

  /** uvmcow's switch of an entry to the fresh copy in the caller's hands. */
  function Repoint(s: State, k: UPage, mem: Pa): State
    requires k in s.leaf && k in s.perm
  {
    s.(leaf := s.leaf[k := mem], perm := s.perm[k := s.perm[k].(w := true, c := false)],
       extra := s.extra - multiset{mem} + multiset{s.leaf[k]})
  }

  function PutShm(s: State, i: nat, pa: Pa): State {
    s.(shm := s.shm[i := pa], extra := s.extra - multiset{pa}, shared := s.shared + {pa})
  }

  function TakeShm(s: State, i: nat): State
    requires i in s.shm
  {
    s.(shm := s.shm - {i}, extra := s.extra + multiset{s.shm[i]})
  }

  function Incref(s: State, pa: Pa): State
    requires Sized(s)
  {
    s.(ref := s.ref[pa := s.ref[pa] + 1], extra := s.extra + multiset{pa})
  }

  // ---- what exact counts mean ----

  lemma CountAt(s: State, pa: Pa)
    requires Inv(s)
    ensures s.ref[pa] == Uses(s.leaf, pa) + Uses(s.own, pa) + Uses(s.shm, pa) + s.extra[pa]
  {
  }

  /** A page with one reference that some entry holds has that entry as its
      only holder. */
  lemma SoleHolder(s: State, k: UPage)
    requires Inv(s) && k in s.leaf && s.ref[s.leaf[k]] == 1
    ensures forall j :: j in s.leaf && s.leaf[j] == s.leaf[k] ==> j == k
    ensures s.extra[s.leaf[k]] == 0
  {
    CountAt(s, s.leaf[k]);
    UsesHolder(s.leaf, k);
  }

  /** The kernel's own pages have no reference but the one it records. */
  lemma OwnPage(s: State, o: Owner)
    requires Inv(s) && o in s.own
    ensures s.extra[s.own[o]] == 0 && s.ref[s.own[o]] == 1
    ensures forall k :: k in s.leaf ==> s.leaf[k] != s.own[o]
    ensures forall i :: i in s.shm ==> s.shm[i] != s.own[o]
  {
    var pa := s.own[o];
    CountAt(s, pa);
    UsesHolder(s.own, o);
    hide Uses;
    forall k | k in s.leaf && s.leaf[k] == pa ensures false { UsesHolder(s.leaf, k); }
    forall i | i in s.shm && s.shm[i] == pa ensures false { UsesHolder(s.shm, i); }
  }

  /** A mapped page has a reference besides any in the caller's hands. */
  lemma MappedPage(s: State, k: UPage)
    requires Inv(s) && k in s.leaf
    ensures s.ref[s.leaf[k]] >= 1 + s.extra[s.leaf[k]]
  {
    CountAt(s, s.leaf[k]);
    UsesHolder(s.leaf, k);
  }

  /** Nothing but the caller holds a page whose references are all in hand. */
  lemma Unheld(s: State, pa: Pa)
    requires Inv(s) && s.ref[pa] == s.extra[pa]
    ensures forall k :: k in s.leaf ==> s.leaf[k] != pa
    ensures forall k :: k in s.own ==> s.own[k] != pa
    ensures forall k :: k in s.shm ==> s.shm[k] != pa
  {
    hide Uses, Holders;
    CountAt(s, pa);
    forall k | k in s.leaf && s.leaf[k] == pa ensures false { UsesHolder(s.leaf, k); }
    forall k | k in s.own && s.own[k] == pa ensures false { UsesHolder(s.own, k); }
    forall k | k in s.shm && s.shm[k] == pa ensures false { UsesHolder(s.shm, k); }
  }

  /** Counts stay exact when each page's gain in entries is a loss in hand. */
  lemma LeafMoved(s: State, leaf: map<UPage, Pa>, extra: multiset<Pa>)
    requires Counted(s.ref, s.leaf, s.own, s.shm, s.extra)
    requires forall x: Pa :: Uses(leaf, x) + extra[x] == Uses(s.leaf, x) + s.extra[x]
    ensures Counted(s.ref, leaf, s.own, s.shm, extra)
  {
  }

  lemma OwnMoved(s: State, own: map<Owner, Pa>, extra: multiset<Pa>)
    requires Counted(s.ref, s.leaf, s.own, s.shm, s.extra)
    requires forall x: Pa :: Uses(own, x) + extra[x] == Uses(s.own, x) + s.extra[x]
    ensures Counted(s.ref, s.leaf, own, s.shm, extra)
  {
  }

  lemma ShmMoved(s: State, shm: map<nat, Pa>, extra: multiset<Pa>)
    requires Counted(s.ref, s.leaf, s.own, s.shm, s.extra)
    requires forall x: Pa :: Uses(shm, x) + extra[x] == Uses(s.shm, x) + s.extra[x]
    ensures Counted(s.ref, s.leaf, s.own, shm, extra)
  {
  }

  /** Counts stay exact when a reference in hand is made or given up. */
  lemma RefMoved(s: State, ref: seq<nat>, extra: multiset<Pa>)
    requires Counted(s.ref, s.leaf, s.own, s.shm, s.extra) && |ref| == NPAGES
    requires forall x: Pa :: ref[x] + s.extra[x] == s.ref[x] + extra[x]
    ensures Counted(ref, s.leaf, s.own, s.shm, extra)
  {
  }

  // ---- each change keeps the invariant ----

  lemma AllocInv(s: State)
    requires Inv(s) && |s.free| > 0
    ensures Inv(Alloc(s))
    ensures Alloc(s).ref[s.free[0]] == 1 && Alloc(s).extra[s.free[0]] == 1
    ensures s.free[0] !in s.shared && s.ref[s.free[0]] == 0 && s.extra[s.free[0]] == 0
  {
    hide Uses, Holders, Counted;
    var pa, t := s.free[0], Alloc(s);
    assert pa in s.free;
    CountAt(s, pa);
    Unheld(s, pa);
    RefMoved(s, t.ref, t.extra);
    assert s.free == [pa] + t.free;
  }

  lemma FreeInv(s: State, pa: Pa)
    requires Inv(s) && pa in s.extra
    ensures s.ref[pa] > 0 && s.ref[pa] >= s.extra[pa] && Inv(Free(s, pa))
  {
    CountAt(s, pa);
    FreeHolders(s, pa);
    FreeLists(s, pa);
    hide Uses, Holders, Counted, Exclusive, WritableAlone, FreeList, SharedLive;
    RefMoved(s, Free(s, pa).ref, Free(s, pa).extra);
  }

  lemma FreeLists(s: State, pa: Pa)
    requires Inv(s) && pa in s.extra && s.ref[pa] >= s.extra[pa]
    ensures var t := Free(s, pa); FreeList(t.ref, t.free) && SharedLive(t.ref, t.shm, t.shared)
  {
    hide Uses, Holders, Counted, Exclusive, WritableAlone, TaintCovers;
    if s.ref[pa] == 1 {
      Unheld(s, pa);
    }
  }

  lemma FreeHolders(s: State, pa: Pa)
    requires Inv(s) && pa in s.extra && s.ref[pa] > 0
    ensures var t := Free(s, pa);
      && Exclusive(t.ref, t.own) && WritableAlone(t.ref, t.leaf, t.perm, t.shared)
  {
    hide Uses, Holders, Counted, FreeList;
    forall k | k in s.leaf && s.leaf[k] == pa ensures s.ref[pa] > 1 { MappedPage(s, k); }
    forall o | o in s.own ensures s.own[o] != pa { OwnPage(s, o); }
  }

  lemma PutOwnInv(s: State, o: Owner, pa: Pa)
    requires Inv(s) && o !in s.own && pa in s.extra && s.ref[pa] == 1
    ensures Inv(PutOwn(s, o, pa))
  {
    hide Uses, Counted, FreeList, WritableAlone, SharedLive, TaintCovers;
    UsesPut(s.own, o, pa);
    OwnMoved(s, s.own[o := pa], s.extra - multiset{pa});
  }

  lemma TakeOwnInv(s: State, o: Owner)
    requires Inv(s) && o in s.own
    ensures Inv(TakeOwn(s, o))
  {
    hide Uses, Counted, FreeList, WritableAlone, SharedLive, TaintCovers;
    UsesDrop(s.own, o);
    OwnMoved(s, s.own - {o}, s.extra + multiset{s.own[o]});
  }

  lemma OverwriteInv(s: State, pa: Pa, b: Bytes)
    requires Inv(s)
    ensures Inv(Overwrite(s, pa, b))
  {
  }

  lemma MapLeafInv(s: State, k: UPage, pa: Pa, p: Perm)
    requires Inv(s) && k !in s.leaf && pa in s.extra && (p.w ==> s.ref[pa] == 1 || pa in s.shared)
    ensures Inv(MapLeaf(s, k, pa, p))
  {
    hide Uses, Counted, FreeList, Exclusive, SharedLive;
    UsesPut(s.leaf, k, pa);
    LeafMoved(s, s.leaf[k := pa], s.extra - multiset{pa});
  }

  lemma UnmapLeafInv(s: State, k: UPage)
    requires Inv(s) && k in s.leaf
    ensures Inv(UnmapLeaf(s, k))
  {
    hide Uses, Counted, FreeList, Exclusive, SharedLive;
    UsesDrop(s.leaf, k);
    LeafMoved(s, s.leaf - {k}, s.extra + multiset{s.leaf[k]});
  }

  lemma ShareLeafInv(s: State, k: UPage, child: UPage)
    requires Inv(s) && k in s.leaf && child !in s.leaf
    ensures Inv(ShareLeaf(s, k, child))
  {
    hide Uses, Holders, Counted, FreeList, Exclusive, WritableAlone, SharedLive, TaintCovers;
    ShareCounted(s, k, child);
    ShareAlone(s, k, child);
    ShareLists(s, k, child);
  }

  lemma ShareLists(s: State, k: UPage, child: UPage)
    requires Inv(s) && k in s.leaf && child !in s.leaf
    ensures var t := ShareLeaf(s, k, child);
      && FreeList(t.ref, t.free) && Exclusive(t.ref, t.own)
      && SharedLive(t.ref, t.shm, t.shared) && TaintCovers(t.leaf, t.shared, t.tainted)
  {
    hide Uses, Holders, Counted, WritableAlone;
    MappedPage(s, k);
    forall o | o in s.own ensures s.own[o] != s.leaf[k] { OwnPage(s, o); }
  }

  lemma ShareCounted(s: State, k: UPage, child: UPage)
    requires Sized(s) && Counted(s.ref, s.leaf, s.own, s.shm, s.extra) && k in s.leaf && child !in s.leaf
    ensures var t := ShareLeaf(s, k, child); Counted(t.ref, t.leaf, t.own, t.shm, t.extra)
  {
    hide Uses, Counted;
    var t, pa := ShareLeaf(s, k, child), s.leaf[k];
    var more := s.extra + multiset{pa};
    RefMoved(s, t.ref, more);
    UsesPut(s.leaf, child, pa);
    LeafMoved(s.(ref := t.ref, extra := more), t.leaf, s.extra);
  }

  lemma ShareAlone(s: State, k: UPage, child: UPage)
    requires Inv(s) && k in s.leaf && child !in s.leaf
    ensures var t := ShareLeaf(s, k, child); WritableAlone(t.ref, t.leaf, t.perm, t.shared)
  {
    hide Uses, Holders, Counted, FreeList, Exclusive, TaintCovers;
    var t, pa := ShareLeaf(s, k, child), s.leaf[k];
    forall j | j in t.leaf && t.perm[j].w && t.leaf[j] !in t.shared
      ensures t.ref[t.leaf[j]] == 1
    {
      if t.leaf[j] == pa {
        assert j != k && j != child;
        SoleHolder(s, j);
      }
    }
  }

  lemma RepointInv(s: State, k: UPage, mem: Pa)
    requires Inv(s) && k in s.leaf && mem in s.extra && s.ref[mem] == 1 && mem !in s.shared
    ensures Inv(Repoint(s, k, mem))
  {
    hide Uses, Counted, FreeList, Exclusive, SharedLive;
    UsesMove(s.leaf, k, mem);
    LeafMoved(s, s.leaf[k := mem], s.extra - multiset{mem} + multiset{s.leaf[k]});
  }

  lemma PutShmInv(s: State, i: nat, pa: Pa)
    requires Inv(s) && i !in s.shm && i < SHM_MAX && pa in s.extra && s.ref[pa] == s.extra[pa]
    ensures Inv(PutShm(s, i, pa))
  {
    hide Uses, Counted, FreeList, Exclusive;
    assert Counted(s.ref, s.leaf, s.own, s.shm[i := pa], s.extra - multiset{pa}) by {
      UsesPut(s.shm, i, pa);
      ShmMoved(s, s.shm[i := pa], s.extra - multiset{pa});
    }
    Unheld(s, pa);
  }

  lemma TakeShmInv(s: State, i: nat)
    requires Inv(s) && i in s.shm
    ensures Inv(TakeShm(s, i))
  {
    hide Uses, Counted, FreeList, Exclusive, WritableAlone, TaintCovers;
    UsesDrop(s.shm, i);
    ShmMoved(s, s.shm - {i}, s.extra + multiset{s.shm[i]});
  }

  lemma IncrefInv(s: State, i: nat)
    requires Inv(s) && i in s.shm
    ensures Inv(Incref(s, s.shm[i]))
  {
    hide Uses, Holders, Counted, TaintCovers;
    var t := Incref(s, s.shm[i]);
    IncrefOwn(s, i);
    RefMoved(s, t.ref, t.extra);
    hide Exclusive;
  }

  lemma IncrefOwn(s: State, i: nat)
    requires Inv(s) && i in s.shm
    ensures Exclusive(Incref(s, s.shm[i]).ref, s.own)
  {
    hide Uses, Holders, Counted, FreeList, SharedLive, TaintCovers, WritableAlone;
    forall o | o in s.own ensures s.own[o] != s.shm[i] { OwnPage(s, o); }
  }
}
