/** The kernel's memory operations (kernel/kalloc.c, kernel/vm.c,
    kernel/proc.c, kernel/shm.c, kernel/brd.c), each shown to keep every
    reference count exact and to look to every process like the same operation
    of the eager machine. Page tables appear as the map they implement. */
module Memory {
  import opened Common
  import opened PageRefs
  import opened CopyOnWrite

  /** PGROUNDUP(sz) / PGSIZE */
  function PagesOf(sz: nat): nat {
    (sz + PGSIZE - 1) / PGSIZE
  }

  /** The level-1 and level-0 page-table pages on the path to vpn. */
  function MidOf(space: nat, vpn: nat): Owner {
    Mid(space, vpn / 0x4_0000)
  }

  function LastOf(space: nat, vpn: nat): Owner {
    Last(space, vpn / 512)
  }

  predicate InRange(k: UPage, space: nat, lo: nat, hi: nat) {
    k.space == space && lo <= k.vpn < hi
  }

  function Outside<T>(m: map<UPage, T>, space: nat, lo: nat, hi: nat): map<UPage, T> {
    map k | k in m && !InRange(k, space, lo, hi) :: m[k]
  }

  /** The marks on pages lo to hi of the space are taken off. */
  function Cleaned(tainted: set<UPage>, space: nat, lo: nat, hi: nat): set<UPage> {
    set k | k in tainted && !InRange(k, space, lo, hi)
  }

  /** The child's copies of the parent's marks on the first n pages are added. */
  function Spread(tainted: set<UPage>, parent: nat, child: nat, n: nat): set<UPage> {
    tainted + set k | k in tainted && k.space == parent && k.vpn < n :: UPage(child, k.vpn)
  }

  lemma CleanedStep(tainted: set<UPage>, space: nat, lo: nat, a: nat)
    requires lo <= a
    ensures Cleaned(tainted, space, lo, a + 1) == Cleaned(tainted, space, lo, a) - {UPage(space, a)}
    ensures Cleaned(tainted, space, a, a) == tainted
  {
  }

  /** Marks on pages that are not mapped do not exist. */
  lemma CleanedNone(s: State, space: nat, lo: nat, hi: nat)
    requires Sized(s) && forall k :: k in s.leaf ==> !InRange(k, space, lo, hi)
    ensures Cleaned(s.tainted, space, lo, hi) == s.tainted
  {
  }

  lemma SpreadStep(tainted: set<UPage>, parent: nat, child: nat, v: nat)
    requires parent != child && forall k :: k in tainted ==> k.space != child
    ensures Spread(tainted, parent, child, 0) == tainted
    ensures UPage(parent, v) in Spread(tainted, parent, child, v) <==> UPage(parent, v) in tainted
    ensures Spread(tainted, parent, child, v + 1) ==
            Spread(tainted, parent, child, v) + if UPage(parent, v) in tainted then {UPage(child, v)} else {}
    ensures Cleaned(Spread(tainted, parent, child, v), child, 0, v) == tainted
  {
    var t := Spread(tainted, parent, child, v);
    forall k ensures k in t <==> k in tainted || (k.space == child && k.vpn < v && UPage(parent, k.vpn) in tainted) {
      if k.space == child && k.vpn < v && UPage(parent, k.vpn) in tainted {
        assert k == UPage(child, UPage(parent, k.vpn).vpn);
      }
    }
    var u := Spread(tainted, parent, child, v + 1);
    forall k
      ensures k in u <==> k in tainted || (k.space == child && k.vpn < v + 1 && UPage(parent, k.vpn) in tainted)
    {
      if k.space == child && k.vpn < v + 1 && UPage(parent, k.vpn) in tainted {
        assert k == UPage(child, UPage(parent, k.vpn).vpn);
      }
    }
    hide Spread;
  }

  lemma OutsideStep<T>(m: map<UPage, T>, space: nat, lo: nat, a: nat)
    requires lo <= a
    ensures Outside(m, space, lo, a + 1) == Outside(m, space, lo, a) - {UPage(space, a)}
    ensures Outside(m, space, a, a) == m
  {
  }

  /** Nothing changed but entries, page contents, and page-table pages that
      were added. */
  ghost predicate SameBut(s: State, t: State) {
    && t.shm == s.shm && t.extra == s.extra && t.shared == s.shared && t.tainted == s.tainted
    && Grows(s.own, t.own)
  }

  /** Both entries point to the same page. */
  ghost predicate SamePage(s: State, q: UPage, k: UPage) {
    q in s.leaf && k in s.leaf && s.leaf[q] == s.leaf[k]
  }

  lemma OneByte(s: State, k: UPage, at: nat, b: nat)
    requires Sized(s) && k in s.leaf && at < PGSIZE && s.pages[s.leaf[k]][at..at + 1] == [b]
    ensures forall q :: SamePage(s, q, k) ==> View(s, q)[at] == b
  {
    assert s.pages[s.leaf[k]][at..at + 1][0] == s.pages[s.leaf[k]][at];
  }

  /** The pages that were mapped still are, and have as many references. */
  ghost predicate RefsKept(s: State, t: State)
    requires Sized(s) && Sized(t)
  {
    forall k :: k in s.leaf ==> k in t.leaf && t.leaf[k] == s.leaf[k] && t.ref[t.leaf[k]] == s.ref[s.leaf[k]]
  }

  /** Pages lo to hi of the space have the same permissions, and no holder but
      the space. */
  ghost predicate AllOwn(s: State, space: nat, lo: nat, hi: nat, p: Perm)
    requires Sized(s)
  {
    forall k :: InRange(k, space, lo, hi) ==> k in s.leaf && s.perm[k] == p && s.ref[s.leaf[k]] == 1
  }

  /** The caller's fresh page has become page k. */
  lemma FreshMapped(s: State, t: State, mid: State, k: UPage, pa: Pa, p: Perm)
    requires Inv(s) && |s.free| > 0 && pa == s.free[0] && s.ref[pa] == 0
    requires t == Overwrite(Alloc(s), pa, ZeroPage()) && Quiet(t, mid) && k !in s.leaf
    ensures var u := MapLeaf(mid, k, pa, p); Sized(u) && RefsKept(s, u) && u.ref[pa] == 1
  {
    hide Counted, FreeList, Exclusive, WritableAlone, SharedLive, TaintCovers, Fill, ZeroPage, Quiet;
    QuietSame(t, mid);
    QuietRef(t, mid, pa);
    forall x | x in s.leaf ensures mid.ref[s.leaf[x]] == s.ref[s.leaf[x]] {
      MappedPage(s, x);
      QuietRef(t, mid, s.leaf[x]);
    }
  }

  lemma QuietRef(s: State, t: State, pa: Pa)
    requires Quiet(s, t) && s.ref[pa] > 0
    ensures t.ref[pa] == s.ref[pa]
  {
  }

  lemma KeptMore(s: State, t: State, u: State, space: nat, lo: nat, a: nat, p: Perm)
    requires Sized(s) && Sized(t) && Sized(u) && RefsKept(s, t) && RefsKept(t, u) && AllOwn(t, space, lo, a, p)
    requires lo <= a && UPage(space, a) in u.leaf && u.perm == t.perm[UPage(space, a) := p]
    requires UPage(space, a) !in t.leaf && u.ref[u.leaf[UPage(space, a)]] == 1
    ensures RefsKept(s, u) && AllOwn(u, space, lo, a + 1, p)
  {
  }

  ghost predicate AllPrivate(s: State, space: nat, lo: nat, hi: nat) {
    forall k :: k in s.leaf && InRange(k, space, lo, hi) ==> s.leaf[k] !in s.shared
  }

  lemma PrivateMore(t: State, u: State, space: nat, lo: nat, a: nat)
    requires AllPrivate(t, space, lo, a) && u.shared == t.shared
    ensures u.leaf == t.leaf ==> AllPrivate(u, space, lo, a)
    ensures var k := UPage(space, a);
      k in u.leaf && u.leaf == t.leaf[k := u.leaf[k]] && u.leaf[k] !in u.shared ==> AllPrivate(u, space, lo, a + 1)
  {
  }

  lemma KeptNone(s: State, space: nat, lo: nat, p: Perm)
    requires Inv(s)
    ensures Sized(s) && RefsKept(s, s) && AllOwn(s, space, lo, lo, p) && AllPrivate(s, space, lo, lo)
  {
  }

  lemma PrivateAt(s: State, space: nat, lo: nat, hi: nat, k: UPage)
    requires AllPrivate(s, space, lo, hi) && k in s.leaf && InRange(k, space, lo, hi)
    ensures s.leaf[k] !in s.shared
  {
  }

  /** m plus an entry for every page from lo to hi. */
  ghost predicate Extended<T>(m: map<UPage, T>, n: map<UPage, T>, space: nat, lo: nat, hi: nat) {
    && Outside(n, space, lo, hi) == m
    && forall v :: lo <= v < hi ==> UPage(space, v) in n
  }

  lemma ExtendedStep<T>(m: map<UPage, T>, n: map<UPage, T>, space: nat, lo: nat, a: nat, x: T)
    requires Extended(m, n, space, lo, a) && lo <= a && UPage(space, a) !in n
    ensures Extended(m, n[UPage(space, a) := x], space, lo, a + 1)
  {
  }

  lemma ExtendedNone<T>(m: map<UPage, T>, space: nat, lo: nat)
    ensures Extended(m, m, space, lo, lo)
  {
  }

  lemma ExtendedNot<T>(m: map<UPage, T>, n: map<UPage, T>, space: nat, lo: nat, a: nat)
    requires Extended(m, n, space, lo, a) && UPage(space, a) !in m
    ensures UPage(space, a) !in n
  {
  }

  lemma ExtendedUndo<T>(m: map<UPage, T>, n: map<UPage, T>, space: nat, lo: nat, a: nat)
    requires Extended(m, n, space, lo, a)
    ensures Outside(n, space, lo, a) == m
  {
  }

  lemma OutsideAt<T>(m: map<UPage, T>, space: nat, lo: nat, a: nat)
    requires lo <= a
    ensures var k := UPage(space, a); var o := Outside(m, space, lo, a);
      (k in o <==> k in m) && (k in o ==> o[k] == m[k])
  {
  }

  /** The page-table pages on the path to vpn that do not exist yet. */
  function Missing(own: map<Owner, Pa>, space: nat, vpn: nat): (n: nat)
    ensures n <= 2
  {
    (if MidOf(space, vpn) in own then 0 else 1) + (if LastOf(space, vpn) in own then 0 else 1)
  }

  /** What was added is page-table pages of the space. */
  ghost predicate AddsFor(a: map<Owner, Pa>, b: map<Owner, Pa>, space: nat) {
    forall o :: o in b ==> o in a || TableOf(o, space)
  }

  /** What was added is page-table pages on the path to vpn. */
  ghost predicate AddsPath(a: map<Owner, Pa>, b: map<Owner, Pa>, space: nat, vpn: nat) {
    forall o :: o in b ==> o in a || o == MidOf(space, vpn) || o == LastOf(space, vpn)
  }

  ghost predicate Grows(a: map<Owner, Pa>, b: map<Owner, Pa>) {
    forall o :: o in a ==> o in b && b[o] == a[o]
  }

  /** Every user mapping lies below PGROUNDUP of its process's size. */
  ghost predicate Bounded(leaf: map<UPage, Pa>, sz: map<nat, nat>) {
    forall k :: k in leaf ==> k.space in sz && k.vpn < PagesOf(sz[k.space])
  }

  /** No process reaches into its trapframe's page. */
  ghost predicate Fits(sz: map<nat, nat>) {
    forall p :: p in sz ==> sz[p] <= TRAPFRAME * PGSIZE
  }

  /** Page-table pages and trapframes belong to live spaces. */
  ghost predicate Owned(own: map<Owner, Pa>, sz: map<nat, nat>) {
    forall o, p :: o in own && Belongs(o, p) ==> p in sz
  }

  lemma OwnedMore(a: map<Owner, Pa>, b: map<Owner, Pa>, sz: map<nat, nat>, space: nat)
    requires Owned(a, sz) && AddsFor(a, b, space) && space in sz
    ensures Owned(b, sz)
  {
  }

  lemma OwnedNew(a: map<Owner, Pa>, b: map<Owner, Pa>, sz: map<nat, nat>, space: nat, n: nat)
    requires Owned(a, sz)
    requires b.Keys == a.Keys + {Frame(space), Root(space), MidOf(space, TRAPFRAME), LastOf(space, TRAPFRAME)}
    ensures Owned(b, sz[space := n])
  {
  }

  lemma OwnedLess(a: map<Owner, Pa>, b: map<Owner, Pa>, sz: map<nat, nat>, space: nat, n: nat)
    requires Owned(a, sz[space := n]) && b.Keys <= a.Keys
    requires forall o :: o in b ==> !Belongs(o, space)
    ensures Owned(b, sz)
  {
  }

  lemma OwnedSame(own: map<Owner, Pa>, sz: map<nat, nat>, space: nat, n: nat)
    requires Owned(own, sz)
    ensures Owned(own, sz[space := n])
  {
  }

  lemma NoneOwned(own: map<Owner, Pa>, sz: map<nat, nat>, space: nat)
    requires Owned(own, sz) && space !in sz
    ensures forall o :: o in own ==> !Belongs(o, space)
  {
  }

  lemma PathAdds(a: map<Owner, Pa>, b: map<Owner, Pa>, space: nat, vpn: nat)
    requires AddsPath(a, b, space, vpn)
    ensures AddsFor(a, b, space)
  {
  }

  lemma AddsNone(a: map<Owner, Pa>, space: nat)
    ensures AddsFor(a, a, space)
  {
  }

  lemma AddsMore(a: map<Owner, Pa>, b: map<Owner, Pa>, c: map<Owner, Pa>, space: nat)
    requires AddsFor(a, b, space) && AddsFor(b, c, space)
    ensures AddsFor(a, c, space)
  {
  }

  lemma FitsPages(sz: map<nat, nat>, space: nat)
    requires Fits(sz) && space in sz
    ensures PagesOf(sz[space]) <= TRAPFRAME
  {
  }

  lemma ExtendedBounded(m: map<UPage, Pa>, n: map<UPage, Pa>, sz: map<nat, nat>, space: nat, to: nat)
    requires Bounded(m, sz) && space in sz && sz[space] <= to
    requires Extended(m, n, space, PagesOf(sz[space]), PagesOf(to))
    ensures Bounded(n, sz[space := to])
  {
  }

  lemma OutsideBounded(m: map<UPage, Pa>, sz: map<nat, nat>, space: nat, to: nat)
    requires Bounded(m, sz) && space in sz
    ensures Bounded(Outside(m, space, PagesOf(to), PagesOf(sz[space])), sz[space := to])
  {
  }

  /** The parent's page that a child's page shares, and any other page itself. */
  function Source(k: UPage, parent: nat, child: nat): UPage {
    if k.space == child then UPage(parent, k.vpn) else k
  }

  /** The first n pages of parent are shared with child: the same pages, the
      same copy-on-write permissions on both sides, all other entries as
      before. */
  ghost predicate Forked(s: State, t: State, parent: nat, child: nat, n: nat) {
    && s.leaf.Keys == s.perm.Keys && t.leaf.Keys == t.perm.Keys && t.shm == s.shm
    && (forall k :: k in s.leaf ==> k.space != child)
    && (forall k :: k in t.leaf <==> Source(k, parent, child) in s.leaf && (k.space == child ==> k.vpn < n))
    && (forall k :: k in t.leaf ==> t.leaf[k] == s.leaf[Source(k, parent, child)])
    && (forall k :: k in t.leaf ==> t.perm[k] == ForkPerm(s, Source(k, parent, child), parent, n))
  }

  function ForkPerm(s: State, k: UPage, parent: nat, n: nat): Perm
    requires k in s.leaf && s.leaf.Keys == s.perm.Keys
  {
    if k.space == parent && k.vpn < n then CowPerm(s, k) else s.perm[k]
  }

  /** The two maps allow the same stores, with or without a fault. */
  ghost predicate WriteKept(p: map<UPage, Perm>, q: map<UPage, Perm>) {
    && q.Keys == p.Keys
    && forall k :: k in p ==> SameAccess(p[k], q[k])
  }

  predicate SameAccess(p: Perm, q: Perm) {
    q.r == p.r && q.x == p.x && q.u == p.u && (q.w || q.c <==> p.w || p.c)
  }

  lemma AwayFrom(s: State, t: State, k: UPage)
    ensures k in t.leaf && t.leaf == s.leaf[k := t.leaf[k]] ==> t.leaf - {k} == s.leaf - {k}
    ensures k in t.perm && t.perm == s.perm[k := t.perm[k]] ==> t.perm - {k} == s.perm - {k}
  {
  }

  lemma ForkedNone(s: State, parent: nat, child: nat)
    requires Inv(s) && forall k :: k in s.leaf ==> k.space != child
    ensures Forked(s, s, parent, child, 0)
  {
  }

  lemma ForkedAt(s: State, t: State, parent: nat, child: nat, v: nat)
    requires Forked(s, t, parent, child, v) && parent != child
    ensures t.leaf.Keys == t.perm.Keys && UPage(child, v) !in t.leaf
    ensures UPage(parent, v) in t.leaf <==> UPage(parent, v) in s.leaf
    ensures UPage(parent, v) in t.leaf ==>
              && t.leaf[UPage(parent, v)] == s.leaf[UPage(parent, v)]
              && t.perm[UPage(parent, v)] == s.perm[UPage(parent, v)]
  {
  }

  lemma ForkedHole(s: State, t: State, parent: nat, child: nat, v: nat)
    requires Forked(s, t, parent, child, v) && parent != child && UPage(parent, v) !in t.leaf
    ensures Forked(s, t, parent, child, v + 1)
  {
  }

  lemma ForkedStep(s: State, t: State, mid: State, parent: nat, child: nat, v: nat)
    requires Forked(s, t, parent, child, v) && parent != child && UPage(parent, v) in t.leaf
    requires Quiet(CowMarked(t, UPage(parent, v)), mid)
    ensures Forked(s, ShareLeaf(mid, UPage(parent, v), UPage(child, v)), parent, child, v + 1)
    ensures var u := ShareLeaf(mid, UPage(parent, v), UPage(child, v)); u.shm == t.shm && u.extra == t.extra
  {
    var k, c := UPage(parent, v), UPage(child, v);
    ForkedAt(s, t, parent, child, v);
    var u := ShareLeaf(mid, k, c);
    QuietSame(CowMarked(t, k), mid);
    hide Quiet;
    assert u.perm == t.perm[k := CowPerm(s, k)][c := CowPerm(s, k)] by {
      hide Forked;
      assert mid.perm == t.perm[k := CowPerm(s, k)];
      assert mid.perm[k := CowPerm(s, k)] == mid.perm;
    }
    ForkedPut(s, t, u, parent, child, v);
  }

  lemma ForkedPut(s: State, t: State, u: State, parent: nat, child: nat, v: nat)
    requires Forked(s, t, parent, child, v) && parent != child && UPage(parent, v) in s.leaf
    requires u.leaf == t.leaf[UPage(child, v) := s.leaf[UPage(parent, v)]] && u.shm == t.shm
    requires UPage(parent, v) in t.leaf
    requires u.perm == t.perm[UPage(parent, v) := CowPerm(s, UPage(parent, v))]
                             [UPage(child, v) := CowPerm(s, UPage(parent, v))]
    ensures Forked(s, u, parent, child, v + 1)
  {
    hide CowPerm;
    var k, c := UPage(parent, v), UPage(child, v);
    forall x
      ensures x in u.leaf <==> Source(x, parent, child) in s.leaf && (x.space == child ==> x.vpn < v + 1)
    {
      if x == c {
        assert Source(x, parent, child) == k;
      } else {
        assert x in u.leaf <==> x in t.leaf;
      }
    }
    forall x | x in u.leaf
      ensures u.leaf[x] == s.leaf[Source(x, parent, child)]
      ensures u.perm[x] == ForkPerm(s, Source(x, parent, child), parent, v + 1)
    {
      assert x == c || x in t.leaf;
    }
  }

  lemma ForkedLeaf(s: State, t: State, parent: nat, child: nat, v: nat)
    requires Forked(s, t, parent, child, v) && parent != child
    ensures Outside(t.leaf, child, 0, v) == s.leaf
  {
    forall k ensures k in s.leaf <==> k in t.leaf && !InRange(k, child, 0, v) {
      assert k.space != child ==> Source(k, parent, child) == k;
    }
  }

  lemma ForkedPerm(s: State, t: State, parent: nat, child: nat, v: nat)
    requires Forked(s, t, parent, child, v) && parent != child
    ensures WriteKept(s.perm, Outside(t.perm, child, 0, v))
  {
    assert Outside(t.perm, child, 0, v).Keys == s.leaf.Keys by {
      ForkedLeaf(s, t, parent, child, v);
      assert Outside(t.perm, child, 0, v).Keys == Outside(t.leaf, child, 0, v).Keys;
    }
    forall k | k in s.perm ensures SameAccess(s.perm[k], t.perm[k]) {
      assert Source(k, parent, child) == k;
    }
  }

  lemma CowAccess(t: State, k: UPage)
    requires k in t.leaf && k in t.perm
    ensures SameAccess(t.perm[k], CowPerm(t, k))
  {
  }

  lemma KeptAlso(p: map<UPage, Perm>, q: map<UPage, Perm>, child: nat, v: nat, k: UPage, c: Perm)
    requires WriteKept(p, Outside(q, child, 0, v)) && k in q && k.space != child && SameAccess(q[k], c)
    ensures WriteKept(p, Outside(q[k := c], child, 0, v))
  {
    assert Outside(q[k := c], child, 0, v) == Outside(q, child, 0, v)[k := c];
  }

  /** Taking back what a failed fork has mapped so far. */
  lemma ForkedUndo(s: State, t: State, mid: State, parent: nat, child: nat, v: nat)
    requires Forked(s, t, parent, child, v) && parent != child && UPage(parent, v) in t.leaf
    requires Quiet(CowMarked(t, UPage(parent, v)), mid)
    ensures Outside(mid.leaf, child, 0, v) == s.leaf && WriteKept(s.perm, Outside(mid.perm, child, 0, v))
    ensures mid.shm == t.shm && mid.extra == t.extra
  {
    hide Quiet, Forked, WriteKept, Outside, CowPerm;
    ForkedAt(s, t, parent, child, v);
    QuietSame(CowMarked(t, UPage(parent, v)), mid);
    ForkedLeaf(s, t, parent, child, v);
    ForkedPerm(s, t, parent, child, v);
    CowAccess(t, UPage(parent, v));
    KeptAlso(s.perm, t.perm, child, v, UPage(parent, v), CowPerm(t, UPage(parent, v)));
  }

  predicate TableOf(o: Owner, space: nat) {
    match o
    case Root(x) => x == space
    case Mid(x, _) => x == space
    case Last(x, _) => x == space
    case _ => false
  }

  predicate Belongs(o: Owner, space: nat) {
    TableOf(o, space) || o == Frame(space)
  }

  /** Only the kernel's own pages and free pages differ. */
  ghost predicate OnlyOwn(s: State, t: State) {
    t.leaf == s.leaf && t.perm == s.perm && t.shm == s.shm && t.extra == s.extra && t.tainted == s.tainted
  }

  /** From s to t the caller has come by a reference to page pa. */
  ghost predicate InHand(s: State, t: State, pa: Pa) {
    && t.leaf == s.leaf && t.perm == s.perm && t.own == s.own && t.shm == s.shm
    && t.shared == s.shared && t.tainted == s.tainted && t.extra == s.extra + multiset{pa}
  }

  lemma FreeFrame(s: State, pa: Pa)
    requires Sized(s) && s.ref[pa] > 0
    ensures var t := Free(s, pa);
      t.leaf == s.leaf && t.perm == s.perm && t.own == s.own && t.shm == s.shm && t.tainted == s.tainted
  {
  }

  lemma OneMorePage(leaf: map<UPage, Pa>, sz: map<nat, nat>, space: nat, pa: Pa)
    requires Bounded(leaf, sz) && space in sz
    ensures var k := UPage(space, PagesOf(sz[space]));
      k !in leaf && Bounded(leaf[k := pa], sz[space := k.vpn * PGSIZE + PGSIZE])
  {
  }

  lemma NobodyIn(leaf: map<UPage, Pa>, sz: map<nat, nat>, space: nat)
    requires Bounded(leaf, sz) && space !in sz
    ensures forall k :: k in leaf ==> k.space != space
  {
  }

  lemma SameWrites(p: map<UPage, Perm>)
    ensures WriteKept(p, p)
  {
  }

  lemma ForkedBounded(s: State, t: State, sz: map<nat, nat>, parent: nat, child: nat)
    requires parent in sz && child !in sz && Bounded(s.leaf, sz)
    requires Forked(s, t, parent, child, PagesOf(sz[parent]))
    ensures Bounded(t.leaf, sz[child := sz[parent]])
  {
  }

  lemma ForkedFrom(s: State, mid: State, t: State, parent: nat, child: nat, n: nat)
    requires OnlyOwn(s, mid) && Forked(mid, t, parent, child, n)
    ensures Forked(s, t, parent, child, n)
  {
  }

  // ---- when shm_open succeeds ----

  /** What becomes of a call of shm_open. NoPage: no page for the id can be had.
      NoTables: the page could not be mapped. Both return -1. Remapped: the
      panic of mappages on an entry that is in use. */
  datatype OpenResult = NoPage | NoTables | Remapped | Opened(va: nat)

  ghost predicate Known(shmId: map<nat, int>, id: int) {
    exists i :: i in shmId && shmId[i] == id
  }

  ghost predicate TableFull(shm: map<nat, Pa>) {
    forall j: nat :: j < SHM_MAX ==> j in shm
  }

  /** There is a page for the id, or a frame and a free page for a new one. */
  ghost predicate Acquires(s: State, shmId: map<nat, int>, id: int) {
    Known(shmId, id) || (!TableFull(s.shm) && s.free != [])
  }

  /** The result of shm_open, from the state before the call: the tables on the
      way to the page above the process's memory must fit into what is free
      once the page itself has been taken. */
  ghost function Verdict(s: State, sz: nat, shmId: map<nat, int>, space: nat, id: int): OpenResult {
    if !Acquires(s, shmId, id) then NoPage
    else if PagesOf(sz) >= TRAPFRAME then Remapped
    else if Missing(s.own, space, PagesOf(sz)) > |s.free| - (if Known(shmId, id) then 0 else 1) then NoTables
    else Opened(PagesOf(sz) * PGSIZE)
  }

  // ---- boot ----

  function KernelImage(n: nat): map<Owner, Pa>
    requires n <= NPAGES
  {
    map i: Pa | i < n :: Other(i) := i
  }

  /** The state freerange leaves behind. */
  lemma BootInv(s: State, n: nat)
    requires n <= NPAGES && Sized(s)
    requires s.leaf == map[] && s.shm == map[] && s.own == KernelImage(n)
    requires s.extra == multiset{} && s.shared == {} && s.tainted == {}
    requires forall pa: Pa :: s.ref[pa] == if pa < n then 1 else 0
    requires forall i, j :: 0 <= i < j < |s.free| ==> s.free[i] != s.free[j]
    requires forall pa: Pa :: pa in s.free <==> n <= pa
    ensures Inv(s) && Refines(s, (k: UPage) => ZeroPage())
  {
    forall pa: Pa ensures s.ref[pa] == Holders(s.leaf, s.own, s.shm, pa) + s.extra[pa] {
      UsesNone(s.leaf, pa);
      UsesNone(s.shm, pa);
      assert (set k | k in s.own && s.own[k] == pa) == if pa < n then {Other(pa)} else {};
    }
  }

  // ---- conservation ----

  lemma {:induction false} PagesUpto(n: nat) returns (all: set<nat>)
    ensures |all| == n && forall i :: i in all <==> 0 <= i < n
  {
    all := {};
    if n > 0 {
      all := PagesUpto(n - 1);
      all := all + {n - 1};
    }
  }

  lemma {:induction false} ListSize(q: seq<Pa>)
    requires forall i, j :: 0 <= i < j < |q| ==> q[i] != q[j]
    ensures |set x: nat | x in q| == |q|
  {
    var all := set x: nat | x in q;
    if q == [] {
      assert all == {};
    } else {
      var last, rest := q[|q| - 1], q[..|q| - 1];
      ListSize(rest);
      var most := set x: nat | x in rest;
      assert q == rest + [last];
      assert all == most + {last};
    }
  }

  /** No page is ever lost or duplicated: every page is free or in use. */
  lemma PagesConserved(s: State)
    requires Inv(s)
    ensures |s.free| + |set pa: nat | pa < NPAGES && s.ref[pa] > 0| == NPAGES
  {
    hide Counted, Exclusive, WritableAlone, SharedLive, TaintCovers;
    var all := PagesUpto(NPAGES);
    var free := set x: nat | x in s.free;
    var used := set pa: nat | pa < NPAGES && s.ref[pa] > 0;
    ListSize(s.free);
    forall x | x in free ensures x in all - used {
      assert (x as Pa) in s.free;
    }
    forall x: nat | x in all - used ensures x in free {
      assert s.ref[x as Pa] == 0;
    }
    assert free == all - used;
    assert used <= all;
  }

  /** Memory permitting, copyout can write page k: it is a user page that is
      writable or copy-on-write, or one below the size that is not there yet. */
  ghost predicate CanWrite(s: State, sz: map<nat, nat>, k: UPage) {
    k.vpn < MAXVPN && k.space in sz &&
    if k in s.leaf then k in s.perm && s.perm[k].u && (s.perm[k].w || s.perm[k].c)
    else k.vpn * PGSIZE < sz[k.space]
  }

  /** copyin can read page k, and copyout can reach it: a user page, or one
      below the size that is not there yet and for which there is memory. */
  ghost predicate Reachable(s: State, sz: map<nat, nat>, k: UPage) {
    if k in s.leaf then k in s.perm && s.perm[k].u
    else k.space in sz && k.vpn * PGSIZE < sz[k.space] && 1 + Missing(s.own, k.space, k.vpn) <= |s.free|
  }

  /** copyout can write page k, with the memory there is. */
  ghost predicate Writable(s: State, sz: map<nat, nat>, k: UPage) {
    CanWrite(s, sz, k) && Reachable(s, sz, k) && (k in s.leaf && !s.perm[k].w ==> s.free != [])
  }

  /** Page k can be written as it is. */
  ghost predicate ReadyAt(s: State, k: UPage) {
    k in s.leaf && k in s.perm && s.perm[k].u && s.perm[k].w
  }

  /** So can every page of len bytes from va on. */
  ghost predicate Ready(s: State, space: nat, va: nat, len: nat) {
    forall v :: va / PGSIZE <= v && v * PGSIZE < va + len ==> ReadyAt(s, UPage(space, v))
  }

  lemma ReadyKept(s: State, t: State, space: nat, va: nat, len: nat, n: nat)
    requires n < len
    ensures Ready(s, space, va, len) && t == s.(pages := t.pages) ==> ReadyAt(t, UPage(space, (va + n) / PGSIZE))
  {
    var v := (va + n) / PGSIZE;
    assert va / PGSIZE <= v && v * PGSIZE < va + len;
    assert Ready(s, space, va, len) ==> ReadyAt(s, UPage(space, v));
  }

  /** A store to va takes effect: its page is writable, copy-on-write with a page
      free for the copy, or absent, below the size, with memory for it. */
  ghost predicate Storable(s: State, sz: map<nat, nat>, space: nat, va: nat) {
    var k := UPage(space, va / PGSIZE);
    if k in s.leaf then k in s.perm && s.perm[k].u && (s.perm[k].w || (s.perm[k].c && s.free != []))
    else space in sz && va < sz[space] && 1 + Missing(s.own, space, k.vpn) <= |s.free|
  }

  /** A load from va: its page is readable, or absent, below the size, with
      memory for it. */
  ghost predicate Loadable(s: State, sz: map<nat, nat>, space: nat, va: nat) {
    var k := UPage(space, va / PGSIZE);
    if k in s.leaf then k in s.perm && s.perm[k].u && s.perm[k].r
    else space in sz && va < sz[space] && 1 + Missing(s.own, space, k.vpn) <= |s.free|
  }

  function Least(a: nat, b: nat): nat {
    if a < b then a else b
  }

  /** The number of pages that len bytes from va on touch. */
  function Spanned(va: nat, len: nat): nat {
    if len == 0 then 0 else (va + len - 1) / PGSIZE - va / PGSIZE + 1
  }

  ghost predicate CanWriteAll(s: State, sz: map<nat, nat>, space: nat, va: nat, len: nat) {
    forall v :: va / PGSIZE <= v < va / PGSIZE + Spanned(va, len) ==> CanWrite(s, sz, UPage(space, v))
  }

  /** Page k is mapped in both states the same way, or in neither. */
  ghost predicate SameAt(s: State, t: State, k: UPage) {
    && (k in s.leaf <==> k in t.leaf) && (k in s.perm <==> k in t.perm)
    && (k in s.perm ==> t.perm[k] == s.perm[k])
  }

  /** After copyout has handled the pages before v: what lies from v on is as it
      was, and each page handled took at most three free pages. */
  ghost predicate Untouched(s0: State, s: State, space: nat, v: nat, turns: nat) {
    && |s.free| >= |s0.free| - 3 * turns
    && forall x :: x >= v ==> SameAt(s0, s, UPage(space, x))
  }

  lemma UntouchedStep(s0: State, s: State, t: State, space: nat, v: nat, turns: nat)
    requires Untouched(s0, s, space, v, turns) && |t.free| >= |s.free| - 3
    requires var k := UPage(space, v); t.leaf - {k} == s.leaf - {k} && t.perm - {k} == s.perm - {k}
    ensures Untouched(s0, t, space, v + 1, turns + 1)
  {
    var k := UPage(space, v);
    forall x | x >= v + 1 ensures SameAt(s0, t, UPage(space, x)) {
      var y := UPage(space, x);
      assert SameAt(s0, s, y);
      assert (y in s.leaf <==> y in s.leaf - {k}) && (y in t.leaf <==> y in t.leaf - {k});
      assert (y in s.perm <==> y in s.perm - {k}) && (y in t.perm <==> y in t.perm - {k});
      assert y in t.perm ==> (t.perm - {k})[y] == t.perm[y] && (s.perm - {k})[y] == s.perm[y];
    }
  }

  lemma UntouchedFirst(s: State, space: nat, v: nat)
    ensures Untouched(s, s, space, v, 0)
  {
  }

  lemma NotWritable(s: State, sz: map<nat, nat>, k: UPage)
    requires !Writable(s, sz, k)
    ensures !CanWrite(s, sz, k) || |s.free| < 3
  {
  }

  /** Memory permitting, copyin can read page k. */
  ghost predicate CanRead(s: State, sz: map<nat, nat>, k: UPage) {
    k.space in sz && if k in s.leaf then k in s.perm && s.perm[k].u else k.vpn * PGSIZE < sz[k.space]
  }

  ghost predicate CanReadAll(s: State, sz: map<nat, nat>, space: nat, va: nat, len: nat) {
    forall v :: va / PGSIZE <= v < va / PGSIZE + Spanned(va, len) ==> CanRead(s, sz, UPage(space, v))
  }

  lemma NotReachable(s: State, sz: map<nat, nat>, k: UPage)
    requires !Reachable(s, sz, k) && k.space in sz
    ensures !CanRead(s, sz, k) || |s.free| < 3
  {
  }

  /** A page that stops copyin was not to be read to begin with, or memory was
      short. */
  lemma ReadShort(s0: State, s: State, sz: map<nat, nat>, space: nat, va: nat, len: nat, done: nat, turns: nat)
    requires done < len && (va + done) / PGSIZE == va / PGSIZE + turns
    requires Untouched(s0, s, space, va / PGSIZE + turns, turns)
    requires !CanRead(s, sz, UPage(space, va / PGSIZE + turns)) || |s.free| < 3
    ensures !CanReadAll(s0, sz, space, va, len) || |s0.free| < 3 * Spanned(va, len)
  {
    var k := UPage(space, va / PGSIZE + turns);
    assert SameAt(s0, s, k);
    if CanReadAll(s0, sz, space, va, len) {
      assert CanRead(s0, sz, k);
    }
  }

  /** b is what the eager machine holds at va, unless the page stems from
      shm_open. */
  predicate Reads(tainted: set<UPage>, e: Eager, space: nat, va: nat, b: nat) {
    UPage(space, va / PGSIZE) !in tainted ==> b == e(UPage(space, va / PGSIZE))[va % PGSIZE]
  }

  /** b is what the process reads at va, unless the page stems from shm_open. */
  ghost predicate ReadsSeen(s: State, space: nat, va: nat, b: nat) {
    Sized(s) && (Private(s, UPage(space, va / PGSIZE)) ==> b == Seen(s, space, va))
  }

  lemma AllSeen(s0: State, s: State, e: Eager, space: nat, va: nat, dst: seq<nat>)
    requires Refines(s0, e) && Refines(s, e) && s.tainted == s0.tainted
    requires forall i :: 0 <= i < |dst| ==> Reads(s.tainted, e, space, va + i, dst[i])
    ensures Stores(s0, s, space, va, []) && forall i :: 0 <= i < |dst| ==> ReadsSeen(s, space, va + i, dst[i])
  {
    hide Stores, View;
    StoredNothing(s, e, space, va);
    StoresIs(s0, s, e, space, va, []);
    forall i | 0 <= i < |dst| ensures ReadsSeen(s, space, va + i, dst[i]) {
      SeenAs(s, e, space, va + i);
    }
  }

  lemma ReadsPage(s: State, e: Eager, space: nat, va: nat, i: nat)
    requires Refines(s, e) && va % PGSIZE + i < PGSIZE && UPage(space, va / PGSIZE) in s.leaf
    ensures Reads(s.tainted, e, space, va + i, s.pages[s.leaf[UPage(space, va / PGSIZE)]][va % PGSIZE + i])
  {
    var k := UPage(space, va / PGSIZE);
    assert (va + i) / PGSIZE == va / PGSIZE && (va + i) % PGSIZE == va % PGSIZE + i;
    if Private(s, k) {
      assert View(s, k) == e(k);
    }
  }

  lemma ReadsJoin(tainted: set<UPage>, e: Eager, space: nat, va: nat, a: seq<nat>, b: seq<nat>)
    requires forall i :: 0 <= i < |a| ==> Reads(tainted, e, space, va + i, a[i])
    requires forall i :: 0 <= i < |b| ==> Reads(tainted, e, space, va + |a| + i, b[i])
    ensures forall i :: 0 <= i < |a + b| ==> Reads(tainted, e, space, va + i, (a + b)[i])
  {
    forall i | 0 <= i < |a + b| ensures Reads(tainted, e, space, va + i, (a + b)[i]) {
      if i >= |a| {
        assert Reads(tainted, e, space, va + |a| + (i - |a|), b[i - |a|]);
      }
    }
  }

  /** Mapped pages lie below the trapframe. */
  lemma MappedBelow(leaf: map<UPage, Pa>, sz: map<nat, nat>)
    requires Bounded(leaf, sz) && Fits(sz)
    ensures forall k :: k in leaf ==> k.vpn < TRAPFRAME
  {
  }

  /** A page that stops copyout was not to be written to begin with, or memory
      was short. */
  lemma StoppedShort(s0: State, s: State, sz: map<nat, nat>, space: nat, va: nat, len: nat, done: nat, turns: nat)
    requires done < len && (va + done) / PGSIZE == va / PGSIZE + turns
    requires Untouched(s0, s, space, va / PGSIZE + turns, turns)
    requires !CanWrite(s, sz, UPage(space, va / PGSIZE + turns)) || |s.free| < 3
    ensures !CanWriteAll(s0, sz, space, va, len) || |s0.free| < 3 * Spanned(va, len)
  {
    var k := UPage(space, va / PGSIZE + turns);
    assert SameAt(s0, s, k);
    if CanWriteAll(s0, sz, space, va, len) {
      assert CanWrite(s0, sz, k);
    }
  }

  class Memory {
    /** kmem, ref_count, physical memory, the page tables and shm_table. */
    var s: State
    var sz: map<nat, nat>          // p->sz of every live address space

    var shmId: map<nat, int>       // shm_table.frames[i].id and .ref
    var shmRef: map<nat, int>

    var loaded: bool               // rd_dev.loaded

    /** A frame is in use exactly when it has a page, and then it is open. */
    ghost predicate ShmTable()
      reads this
    {
      && shmId.Keys == s.shm.Keys && shmRef.Keys == s.shm.Keys
      && forall i :: i in s.shm ==> shmRef[i] > 0
    }

    /** Every count is exact, every user mapping lies below its process's size
        and below the trapframe, and what belongs to a space belongs to a live
        one. */
    ghost predicate Valid()
      reads this
    {
      Inv(s) && Bounded(s.leaf, sz) && Fits(sz) && Owned(s.own, sz)
    }

    // ---- kalloc.c ----

    /** kalloc: a page that nobody references, or none exactly when all pages
        are in use. */
    method Kalloc() returns (r: Option<Pa>)
      requires Inv(s)
      modifies `s
      ensures Inv(s) && Sized(old(s))
      ensures r.None? <==> old(s).free == []
      ensures r.None? ==> s == old(s)
      ensures r.Some? ==> r.value == old(s).free[0] && s == Alloc(old(s))
      ensures r.Some? ==> old(s).ref[r.value] == 0 && old(s).extra[r.value] == 0 && r.value !in s.shared
    {
      if s.free == [] {
        return None;
      }
      AllocInv(s);
      var pa := s.free[0];
      s := s.(free := s.free[1..]);
      s := s.(pages := s.pages[pa := Fill(5)]);
      s := s.(ref := s.ref[pa := 1]);
      s := s.(extra := s.extra + multiset{pa});
      r := Some(pa);
    }

    /** kfree: drops one reference; the page becomes free with the last one.
        The code panics if the count is not positive. */
    method Kfree(pa: Pa)
      requires Sized(s) && s.ref[pa] > 0
      modifies `s
      ensures s == Free(old(s), pa).(extra := old(s).extra)
    {
      s := s.(ref := s.ref[pa := s.ref[pa] - 1]);
      if s.ref[pa] > 0 {
        return;
      }
      s := s.(pages := s.pages[pa := Fill(1)]);
      s := s.(free := [pa] + s.free, shared := s.shared - {pa});
    }

    /** kfree of a reference in the caller's hands; no process notices. */
    method KfreeOwn(pa: Pa, ghost e: Eager)
      requires Inv(s) && Refines(s, e) && pa in s.extra
      modifies `s
      ensures Inv(s) && Refines(s, e)
      ensures Sized(old(s)) && old(s).ref[pa] > 0 && s == Free(old(s), pa)
      ensures pa !in old(s).shared && old(s).extra[pa] == 1 ==> InHand(s, old(s), pa)
    {
      FreeInv(s, pa);
      FreeRefines(s, pa, e);
      Kfree(pa);
      s := s.(extra := s.extra - multiset{pa});
      assert s == Free(old(s), pa);
    }

    /** kalloc followed by memset: a zeroed page that only the caller holds. */
    method KallocZero(ghost e: Eager) returns (r: Option<Pa>)
      requires Inv(s) && Refines(s, e)
      modifies `s
      ensures Inv(s) && Refines(s, e)
      ensures r.None? ==> s == old(s) && s.free == []
      ensures r.Some? ==> Sized(old(s)) && old(s).free != [] && r.value == old(s).free[0]
                          && s == Overwrite(Alloc(old(s)), r.value, ZeroPage())
      ensures r.Some? ==> Sized(s) && s.ref[r.value] == 1 && s.extra[r.value] == 1 && r.value !in s.shared
      ensures r.Some? ==> old(s).ref[r.value] == 0
      ensures r.Some? ==> s.pages[r.value] == ZeroPage() && InHand(old(s), s, r.value) && |s.free| == |old(s).free| - 1
    {
      hide Inv, Refines;
      r := Kalloc();
      if r.Some? {
        s := s.(pages := s.pages[r.value := Fill(0)]);
        FreshPage(old(s), e);
      }
    }

    // ---- page tables ----

    /** One page-table page on the path of a walk: allocated, zeroed, linked. */
    method AllocTable(o: Owner) returns (ok: bool)
      requires Inv(s) && o !in s.own
      modifies `s
      ensures Inv(s) && Quiet(old(s), s)
      ensures ok <==> old(s).free != []
      ensures ok ==> o in s.own && s.own == old(s).own[o := s.own[o]] && Sized(s) && s.pages[s.own[o]] == ZeroPage()
      ensures !ok ==> s == old(s)
      ensures ok ==> |s.free| == |old(s).free| - 1
    {
      hide Inv, Quiet, Fill;
      var mem := Kalloc();
      if mem.None? {
        QuietSelf(s);
        return false;
      }
      QuietAlloc(old(s), o, Fill(0));
      var pa := mem.value;
      s := s.(pages := s.pages[pa := Fill(0)]);
      s := s.(own := s.own[o := pa], extra := s.extra - multiset{pa});
      ok := true;
    }

    /** walk with alloc: the page-table pages for vpn exist afterwards exactly
        if there are free pages for those that were missing; no translation
        changes either way. Beyond MAXVA the code panics. */
    method WalkAlloc(space: nat, vpn: nat) returns (ok: bool)
      requires Inv(s) && vpn < MAXVPN
      modifies `s
      ensures Inv(s) && Quiet(old(s), s) && AddsPath(old(s).own, s.own, space, vpn)
      ensures ok ==> MidOf(space, vpn) in s.own && LastOf(space, vpn) in s.own
      ensures ok <==> Missing(old(s).own, space, vpn) <= |old(s).free|
      ensures |s.free| == if ok then |old(s).free| - Missing(old(s).own, space, vpn) else 0
    {
      QuietSelf(s);
      hide Inv, Quiet;
      if MidOf(space, vpn) !in s.own {
        ok := AllocTable(MidOf(space, vpn));
        if !ok {
          return;
        }
      }
      ghost var mid := s;
      if LastOf(space, vpn) !in s.own {
        ok := AllocTable(LastOf(space, vpn));
        QuietTrans(old(s), mid, s);
        if !ok {
          return;
        }
      }
      ok := true;
    }

    /** mappages for one page: pa becomes visible at k, or page-table pages ran
        out and only those have changed. On an entry in use the code panics:
        k is not mapped, and below the trapframe and the trampoline. */
    method Mappages(k: UPage, pa: Pa, p: Perm, ghost e: Eager) returns (ok: bool, ghost mid: State)
      requires Inv(s) && Refines(s, e) && k !in s.leaf && k.vpn < TRAPFRAME && pa in s.extra
      requires Sized(s) && (pa in s.shared || (s.ref[pa] == 1 && s.pages[pa] == ZeroPage()))
      modifies `s
      ensures Inv(s) && Refines(s, e)
      ensures Quiet(old(s), mid) && AddsFor(old(s).own, s.own, k.space)
      ensures ok ==> s == MapLeaf(mid, k, pa, p) && MidOf(k.space, k.vpn) in s.own && LastOf(k.space, k.vpn) in s.own
      ensures !ok ==> s == mid
      ensures ok <==> Missing(old(s).own, k.space, k.vpn) <= |old(s).free|
      ensures |s.free| == if ok then |old(s).free| - Missing(old(s).own, k.space, k.vpn) else 0
    {
      hide Inv, Refines, Quiet, AddsPath, AddsFor, Missing;
      ok := WalkAlloc(k.space, k.vpn);
      PathAdds(old(s).own, s.own, k.space, k.vpn);
      QuietKeeps(old(s), s, pa, e);
      mid := s;
      if ok {
        MapLeafInv(s, k, pa, p);
        MapLeafRefines(s, k, pa, p, e);
        s := s.(leaf := s.leaf[k := pa], perm := s.perm[k := p]);
        s := s.(extra := s.extra - multiset{pa}, tainted := if pa in s.shared then s.tainted + {k} else s.tainted);
        assert s == MapLeaf(mid, k, pa, p);
      }
    }

    /** A fresh zeroed page mapped at k, as vmfault and uvmalloc do it. On
        failure nothing but page-table pages has changed. */
    method MapZeroed(k: UPage, p: Perm, ghost e: Eager) returns (ok: bool)
      requires Inv(s) && Refines(s, e) && k !in s.leaf && k.vpn < TRAPFRAME
      modifies `s
      ensures Inv(s) && Refines(s, e) && SameBut(old(s), s) && AddsFor(old(s).own, s.own, k.space)
      ensures ok <==> 1 + Missing(old(s).own, k.space, k.vpn) <= |old(s).free|
      ensures ok ==> k in s.leaf && s.leaf == old(s).leaf[k := s.leaf[k]] && s.perm == old(s).perm[k := p]
                     && s.leaf[k] !in s.shared
                     && |s.free| == |old(s).free| - 1 - Missing(old(s).own, k.space, k.vpn)
      ensures ok ==> Sized(old(s)) && Sized(s) && RefsKept(old(s), s) && s.ref[s.leaf[k]] == 1
      ensures !ok ==> s.leaf == old(s).leaf && s.perm == old(s).perm
    {
      hide Inv, Refines, ZeroPage, Quiet, AddsFor, Missing, Alloc, Overwrite, Free, RefsKept;
      AddsNone(s.own, k.space);
      var mem := KallocZero(e);
      if mem.None? {
        return false;
      }
      PutBack(old(s).extra, mem.value);
      ghost var t, mid := s, s;
      ok, mid := Mappages(k, mem.value, p, e);
      QuietSame(t, mid);
      if ok {
        FreshMapped(old(s), t, mid, k, mem.value, p);
      } else {
        KfreeOwn(mem.value, e);
      }
    }

    /** One step of uvmunmap with do_free. */
    method UnmapOne(k: UPage, ghost e: Eager)
      requires Inv(s) && Refines(s, e) && k in s.leaf
      modifies `s
      ensures Inv(s) && Refines(s, Set(e, k, ZeroPage()))
      ensures Sized(old(s)) && old(s).ref[old(s).leaf[k]] > 0 && s == Unmapped(old(s), k)
    {
      hide Inv, Refines;
      UnmapFree(s, k, e);
      Kfree(s.leaf[k]);
      s := s.(leaf := s.leaf - {k}, perm := s.perm - {k}, tainted := s.tainted - {k});
    }

    /** uvmunmap with do_free: exactly the mappings of pages lo to lo + n go;
        each gives up its reference. */
    method UnmapRange(space: nat, lo: nat, n: nat, ghost e: Eager)
      requires Inv(s) && Refines(s, e) && lo + n <= TRAPFRAME
      modifies `s
      ensures Inv(s) && Refines(s, Dropped(e, space, lo, lo + n))
      ensures s.leaf == Outside(old(s).leaf, space, lo, lo + n) && s.perm == Outside(old(s).perm, space, lo, lo + n)
      ensures s.own == old(s).own && s.shm == old(s).shm && s.extra == old(s).extra
      ensures s.tainted == Cleaned(old(s).tainted, space, lo, lo + n)
      ensures AllPrivate(old(s), space, lo, lo + n) ==> s.shared == old(s).shared
    {
      hide Inv, Refines, Outside, AllPrivate, Dropped, Set, Cleaned;
      DroppedNone(s, e, space, lo);
      CleanedStep(s.tainted, space, lo, lo);
      OutsideStep(s.leaf, space, lo, lo);
      OutsideStep(s.perm, space, lo, lo);
      var a := lo;
      while a < lo + n
        invariant lo <= a <= lo + n
        invariant Inv(s) && Refines(s, Dropped(e, space, lo, a))
        invariant s.leaf == Outside(old(s).leaf, space, lo, a) && s.perm == Outside(old(s).perm, space, lo, a)
        invariant s.own == old(s).own && s.shm == old(s).shm && s.extra == old(s).extra
        invariant s.tainted == Cleaned(old(s).tainted, space, lo, a)
        invariant AllPrivate(old(s), space, lo, lo + n) ==> s.shared == old(s).shared
      {
        var k := UPage(space, a);
        OutsideStep(old(s).leaf, space, lo, a);
        OutsideStep(old(s).perm, space, lo, a);
        OutsideAt(old(s).leaf, space, lo, a);
        CleanedStep(old(s).tainted, space, lo, a);
        TaintMapped(s);
        if k in s.leaf {
          if AllPrivate(old(s), space, lo, lo + n) {
            PrivateAt(old(s), space, lo, lo + n, k);
          }
          UnmapOne(k, Dropped(e, space, lo, a));
          DroppedStep(s, e, space, lo, a);
        } else {
          DroppedHole(s, e, space, lo, a);
        }
        a := a + 1;
      }
    }

    // ---- growing, shrinking, lazy faults ----

    /** uvmalloc's way out: the pages added since s0 go again. */
    method UndoAlloc(space: nat, lo: nat, a: nat, ghost s0: State, ghost e: Eager)
      requires Inv(s) && Refines(s, e) && lo <= a <= TRAPFRAME && Refines(s0, e) && SameBut(s0, s)
      requires Extended(s0.leaf, s.leaf, space, lo, a) && Extended(s0.perm, s.perm, space, lo, a)
      requires AllPrivate(s, space, lo, a) && forall k :: k in s0.leaf ==> !InRange(k, space, lo, a)
      modifies `s
      ensures Inv(s) && Refines(s, e) && SameBut(s0, s) && s.own == old(s).own
      ensures s.leaf == s0.leaf && s.perm == s0.perm
    {
      hide Inv, Refines, Extended, Outside, AllPrivate, Cleaned;
      RefinesSized(s0, e);
      CleanedNone(s0, space, lo, a);
      ExtendedUndo(s0.leaf, s.leaf, space, lo, a);
      ExtendedUndo(s0.perm, s.perm, space, lo, a);
      UnmapRange(space, lo, a - lo, e);
      DroppedBack(s0, s, e, space, lo, a);
    }

    /** uvmalloc: either every page up to newsz is mapped, zeroed, or every
        page added on the way is gone again. */
    method Uvmalloc(space: nat, oldsz: nat, newsz: nat, p: Perm, ghost e: Eager) returns (r: nat)
      requires Inv(s) && Refines(s, e)
      requires forall k :: k in s.leaf ==> !InRange(k, space, PagesOf(oldsz), PagesOf(newsz))
      requires newsz <= TRAPFRAME * PGSIZE || PagesOf(oldsz) + |s.free| < TRAPFRAME
      modifies `s
      ensures Inv(s) && Refines(s, e) && SameBut(old(s), s) && AddsFor(old(s).own, s.own, space)
      ensures newsz < oldsz ==> r == oldsz && s == old(s)
      ensures newsz >= oldsz ==> r == newsz || r == 0
      ensures newsz >= oldsz && r == newsz ==>
                && Extended(old(s).leaf, s.leaf, space, PagesOf(oldsz), PagesOf(newsz))
                && Extended(old(s).perm, s.perm, space, PagesOf(oldsz), PagesOf(newsz))
                && Sized(old(s)) && Sized(s) && RefsKept(old(s), s)
                && AllOwn(s, space, PagesOf(oldsz), PagesOf(newsz), p)
                && newsz <= TRAPFRAME * PGSIZE
                && |old(s).free| - 3 * (PagesOf(newsz) - PagesOf(oldsz)) <= |s.free|
                   <= |old(s).free| - (PagesOf(newsz) - PagesOf(oldsz))
      ensures newsz >= oldsz && r != newsz ==>
                && s.leaf == old(s).leaf && s.perm == old(s).perm
                && |old(s).free| < 3 * (PagesOf(newsz) - PagesOf(oldsz))
    {
      hide Inv, Refines, Extended, Outside, AddsFor, Missing, RefsKept, AllOwn, AllPrivate;
      AddsNone(s.own, space);
      if newsz < oldsz {
        return oldsz;
      }
      var lo := PagesOf(oldsz);
      KeptNone(s, space, lo, p);
      ExtendedNone(s.leaf, space, lo);
      ExtendedNone(s.perm, space, lo);
      var a := lo;
      while a * PGSIZE < newsz
        invariant lo <= a && (a == lo || a <= PagesOf(newsz))
        invariant Inv(s) && Refines(s, e) && SameBut(old(s), s) && AllPrivate(s, space, lo, a)
        invariant Extended(old(s).leaf, s.leaf, space, lo, a) && Extended(old(s).perm, s.perm, space, lo, a)
        invariant Sized(old(s)) && Sized(s) && RefsKept(old(s), s) && AllOwn(s, space, lo, a, p)
        invariant |old(s).free| - 3 * (a - lo) <= |s.free| <= |old(s).free| - (a - lo)
        invariant AddsFor(old(s).own, s.own, space)
        decreases newsz - a * PGSIZE
      {
        var k := UPage(space, a);
        ExtendedNot(old(s).leaf, s.leaf, space, lo, a);
        KeysMatch(s);
        ghost var before := s;
        var ok := MapZeroed(k, p, e);
        AddsMore(old(s).own, before.own, s.own, space);
        PrivateMore(before, s, space, lo, a);
        if !ok {
          UndoAlloc(space, lo, a, old(s), e);
          return 0;
        }
        ExtendedStep(old(s).leaf, before.leaf, space, lo, a, s.leaf[k]);
        ExtendedStep(old(s).perm, before.perm, space, lo, a, p);
        KeptMore(old(s), before, s, space, lo, a, p);
        a := a + 1;
      }
      return newsz;
    }

    /** uvmdealloc: exactly the pages above newsz go. */
    method Uvmdealloc(space: nat, oldsz: nat, newsz: nat, ghost e: Eager) returns (r: nat)
      requires Inv(s) && Refines(s, e) && oldsz <= TRAPFRAME * PGSIZE
      modifies `s
      ensures Inv(s) && s.own == old(s).own && s.shm == old(s).shm && s.extra == old(s).extra
      ensures s.tainted == Cleaned(old(s).tainted, space, PagesOf(r), PagesOf(oldsz))
      ensures r == if newsz >= oldsz then oldsz else newsz
      ensures Refines(s, Dropped(e, space, PagesOf(r), PagesOf(oldsz)))
      ensures s.leaf == Outside(old(s).leaf, space, PagesOf(r), PagesOf(oldsz))
    {
      hide Inv, Refines, Outside, Cleaned;
      r := if newsz >= oldsz then oldsz else newsz;
      if PagesOf(r) < PagesOf(oldsz) {
        UnmapRange(space, PagesOf(r), PagesOf(oldsz) - PagesOf(r), e);
      } else {
        DroppedNone(s, e, space, PagesOf(r));
        CleanedStep(s.tainted, space, PagesOf(r), PagesOf(r));
        OutsideStep(s.leaf, space, PagesOf(r), PagesOf(r));
      }
    }

    /** growproc: memory grows by zeroed pages or not at all, or shrinks by
        exactly the pages above the new size. A shrink below zero wraps around
        in 64 bits and is ignored. */
    method Growproc(space: nat, n: int, ghost e: Eager) returns (ok: bool)
      requires Valid() && Refines(s, e) && space in sz && -0x8000_0000 <= n < 0x8000_0000
      modifies `s, `sz
      ensures Valid() && s.shm == old(s).shm && s.extra == old(s).extra
      ensures n > 0 ==> (ok ==> sz == old(sz)[space := old(sz)[space] + n] && sz[space] <= TRAPFRAME * PGSIZE)
                        && (!ok ==> sz == old(sz) && s.leaf == old(s).leaf)
      ensures !ok ==> n > 0
      ensures !ok ==> old(sz)[space] + n > TRAPFRAME * PGSIZE ||
                      |old(s).free| < 3 * (PagesOf(old(sz)[space] + n) - PagesOf(old(sz)[space]))
      ensures n > 0 ==> Refines(s, e) && s.tainted == old(s).tainted
      ensures n > 0 && ok ==> Sized(s) && AllOwn(s, space, PagesOf(old(sz)[space]), PagesOf(old(sz)[space] + n),
                                                 Perm(true, true, false, true, false))
      ensures n <= 0 ==>
                && ok && space in sz
                && s.tainted == Cleaned(old(s).tainted, space, PagesOf(sz[space]), PagesOf(old(sz)[space]))
                && sz == old(sz)[space := if old(sz)[space] + n < 0 then old(sz)[space] else old(sz)[space] + n]
                && Refines(s, Dropped(e, space, PagesOf(sz[space]), PagesOf(old(sz)[space])))
    {
      hide Inv, Refines, Outside, Extended, AddsFor, Owned, Cleaned;
      if n > 0 {
        if sz[space] + n > TRAPFRAME * PGSIZE {
          return false;
        }
        var r := Uvmalloc(space, sz[space], sz[space] + n, Perm(true, true, false, true, false), e);
        OwnedMore(old(s).own, s.own, sz, space);
        if r == 0 {
          return false;
        }
        ExtendedBounded(old(s).leaf, s.leaf, sz, space, r);
        OwnedSame(s.own, sz, space, r);
        sz := sz[space := r];
      } else {
        var to := if sz[space] + n < 0 then sz[space] + n + 0x1_0000_0000_0000_0000 else sz[space] + n;
        var r := Uvmdealloc(space, sz[space], to, e);
        OutsideBounded(old(s).leaf, sz, space, r);
        OwnedSame(s.own, sz, space, r);
        sz := sz[space := r];
      }
      ok := true;
    }

    /** sys_sbrk with SBRK_LAZY: only the size changes. */
    method LazySbrk(space: nat, n: nat) returns (ok: bool)
      requires Valid() && space in sz
      modifies `sz
      ensures Valid()
      ensures ok <==> old(sz)[space] + n <= TRAPFRAME * PGSIZE
      ensures sz == if ok then old(sz)[space := old(sz)[space] + n] else old(sz)
    {
      if sz[space] + n > TRAPFRAME * PGSIZE {
        return false;
      }
      sz := sz[space := sz[space] + n];
      ok := true;
    }

    /** vmfault: a page below the size that is not mapped yet becomes a zeroed
        writable page; anything else is refused. */
    method Vmfault(space: nat, va: nat, ghost e: Eager) returns (ok: bool)
      requires Valid() && Refines(s, e) && space in sz
      modifies `s
      ensures Valid() && Refines(s, e) && SameBut(old(s), s)
      ensures var k := UPage(space, va / PGSIZE);
        && (ok <==> va < sz[space] && k !in old(s).leaf && 1 + Missing(old(s).own, space, k.vpn) <= |old(s).free|)
        && (ok ==> k in s.leaf && s.leaf == old(s).leaf[k := s.leaf[k]]
                   && s.perm == old(s).perm[k := Perm(true, true, false, true, false)])
      ensures !ok ==> s.leaf == old(s).leaf && s.perm == old(s).perm
      ensures va >= sz[space] || UPage(space, va / PGSIZE) in old(s).leaf ==> s == old(s)
      ensures ok ==> |s.free| >= |old(s).free| - 3
    {
      hide Inv, Refines, AddsFor, Owned, Missing;
      if va >= sz[space] {
        return false;
      }
      var k := UPage(space, va / PGSIZE);
      if k in s.leaf {
        return false;
      }
      ok := MapZeroed(k, Perm(true, true, false, true, false), e);
      OwnedMore(old(s).own, s.own, sz, space);
    }

    // ---- copy-on-write ----

    /** The private copy that uvmcow and copyout make of a copy-on-write page:
        the entry moves to a fresh copy and becomes writable, the old page
        loses a reference, and nobody sees a difference. */
    method CowCopy(k: UPage, ghost e: Eager) returns (ok: bool)
      requires Inv(s) && Refines(s, e) && k in s.leaf && k in s.perm
      modifies `s
      ensures Inv(s) && Refines(s, e)
      ensures ok <==> old(s).free != []
      ensures !ok ==> s == old(s)
      ensures ok ==>
                && k in s.leaf && s.leaf == old(s).leaf[k := s.leaf[k]]
                && s.perm == old(s).perm[k := old(s).perm[k].(w := true, c := false)]
                && s.own == old(s).own && s.shm == old(s).shm && s.extra == old(s).extra && s.tainted == old(s).tainted
                && s.leaf[k] !in old(s).shared && s.shared <= old(s).shared
                && |s.free| >= |old(s).free| - 1
    {
      hide Inv, Refines;
      var mem := Kalloc();
      if mem.None? {
        return false;
      }
      var pa, copy := s.leaf[k], mem.value;
      CowKeeps(old(s), k, e);
      s := s.(pages := s.pages[copy := s.pages[pa]]);
      s := s.(leaf := s.leaf[k := copy], perm := s.perm[k := s.perm[k].(w := true, c := false)],
              extra := s.extra - multiset{copy} + multiset{pa});
      assert s == CowSwitched(old(s), k);
      hide CowSwitched, Free;
      KfreeOwn(pa, e);
      CowFacts(old(s), k);
      ok := true;
    }

    /** uvmcow, the store page fault on a copy-on-write page. */
    method Uvmcow(space: nat, va: nat, ghost e: Eager) returns (ok: bool)
      requires Valid() && Refines(s, e)
      modifies `s
      ensures Valid() && Refines(s, e) && s.own == old(s).own && s.shm == old(s).shm && s.extra == old(s).extra
      ensures s.tainted == old(s).tainted
      ensures var k := UPage(space, va / PGSIZE);
        && (ok ==> k in s.leaf && k in s.perm && s.perm[k].w)
        && (ok <==> va < MAXVPN * PGSIZE && k in old(s).leaf && k in old(s).perm && old(s).perm[k].u
                    && (old(s).perm[k].w || (old(s).perm[k].c && old(s).free != [])))
      ensures !ok ==> s == old(s)
    {
      hide Inv, Refines;
      KeysMatch(s);
      var k := UPage(space, va / PGSIZE);
      if va / PGSIZE >= MAXVPN || k !in s.leaf || !s.perm[k].u {
        return false;
      }
      if s.perm[k].w {
        return true;
      }
      if !s.perm[k].c {
        return false;
      }
      ok := CowCopy(k, e);
    }

    /** A store through a writable entry, by the hardware or by memmove, or by
        the kernel to a page that it reaches by its physical address. */
    method WritePage(k: UPage, off: nat, chunk: seq<nat>, ghost e: Eager)
      requires Inv(s) && Refines(s, e) && k in s.leaf && k in s.perm && off + |chunk| <= PGSIZE && Sized(s)
      requires s.perm[k].w || s.ref[s.leaf[k]] == 1
      modifies `s
      ensures Inv(s) && Refines(s, Stored(e, k.space, k.vpn * PGSIZE + off, chunk))
      ensures s == old(s).(pages := s.pages) && Sized(s)
      ensures s.pages[s.leaf[k]][off..off + |chunk|] == chunk
    {
      hide Inv, Refines, Stored, Patched;
      KeysMatch(s);
      var pa := s.leaf[k];
      var b := Patched(s.pages[pa], off, chunk);
      OverwriteInv(s, pa, b);
      WriteStored(s, k, off, chunk, e);
      PatchedThere(s.pages[pa], off, chunk);
      s := s.(pages := s.pages[pa := b]);
      assert s == Overwrite(old(s), pa, b);
    }

    /** walkaddr and vmfault, as one pass of copyout's and copyin's loops does
        them: page k is there for the user afterwards. */
    method FaultIn(k: UPage, ghost e: Eager) returns (ok: bool)
      requires Valid() && Refines(s, e) && k.space in sz
      modifies `s
      ensures Valid() && Refines(s, e) && SameBut(old(s), s)
      ensures ok <==> Reachable(old(s), sz, k)
      ensures ok ==> k in s.leaf && k in s.perm && s.perm[k].u && |s.free| >= |old(s).free| - 3
      ensures ok && k !in old(s).leaf ==>
                && s.leaf == old(s).leaf[k := s.leaf[k]]
                && s.perm == old(s).perm[k := Perm(true, true, false, true, false)]
      ensures k in old(s).leaf ==> s == old(s)
      ensures !ok ==> s.leaf == old(s).leaf && s.perm == old(s).perm
    {
      hide Inv, Refines, Missing, Bounded, Fits, Owned;
      KeysMatch(s);
      ok := true;
      if k !in s.leaf || !s.perm[k].u {
        ok := Vmfault(k.space, k.vpn * PGSIZE, e);
      }
    }

    /** The copy-on-write test of copyout. */
    method BreakCow(k: UPage, ghost e: Eager) returns (ok: bool)
      requires Valid() && Refines(s, e) && k in s.leaf && k in s.perm
      modifies `s
      ensures Valid() && Refines(s, e) && s.shm == old(s).shm && s.extra == old(s).extra && s.tainted == old(s).tainted
      ensures ok <==> old(s).perm[k].w || (old(s).perm[k].c && old(s).free != [])
      ensures ok ==> k in s.leaf && s.leaf == old(s).leaf[k := s.leaf[k]]
                     && s.perm == old(s).perm[k := old(s).perm[k].(w := true, c := s.perm[k].c)]
                     && |s.free| >= |old(s).free| - 1
      ensures !ok || old(s).perm[k].w ==> s == old(s)
    {
      hide Inv, Refines, Fits, Owned;
      if s.perm[k].w {
        return true;
      }
      if !s.perm[k].c {
        return false;
      }
      ok := CowCopy(k, e);
    }

    /** What must hold before memmove may write page k: walkaddr and vmfault,
        then the copy-on-write test. */
    method MakeWritable(k: UPage, ghost e: Eager) returns (ok: bool)
      requires Valid() && Refines(s, e) && k.space in sz
      modifies `s
      ensures Valid() && Refines(s, e) && s.shm == old(s).shm && s.extra == old(s).extra && s.tainted == old(s).tainted
      ensures ok <==> Writable(old(s), sz, k)
      ensures ok ==> k in s.leaf && k in s.perm && s.perm[k].w && s.perm[k].u
      ensures s.leaf - {k} == old(s).leaf - {k} && s.perm - {k} == old(s).perm - {k}
      ensures ok ==> |s.free| >= |old(s).free| - 3
      ensures ReadyAt(old(s), k) ==> ok && s == old(s)
    {
      hide Inv, Refines, Missing, Fits, Owned;
      KeysMatch(s);
      FitsPages(sz, k.space);
      if k.vpn >= MAXVPN {
        return false;
      }
      ok := FaultIn(k, e);
      AwayFrom(old(s), s, k);
      if !ok {
        return;
      }
      ghost var before := s;
      ok := BreakCow(k, e);
      AwayFrom(before, s, k);
    }

    /** One pass of copyout's loop: what fits in the page at dstva + done. */
    method CopyPiece(space: nat, dstva: nat, src: seq<nat>, done: nat, ghost e: Eager) returns (ok: bool, m: nat)
      requires Valid() && done < |src| && Refines(s, Stored(e, space, dstva, src[..done])) && space in sz
      modifies `s
      ensures Valid() && s.shm == old(s).shm && s.extra == old(s).extra && s.tainted == old(s).tainted
      ensures var k := UPage(space, (dstva + done) / PGSIZE);
        && (ok <==> Writable(old(s), sz, k)) && (!ok ==> m == 0)
        && (ok ==> m == Least(PGSIZE - (dstva + done) % PGSIZE, |src| - done) && |s.free| >= |old(s).free| - 3)
        && s.leaf - {k} == old(s).leaf - {k} && s.perm - {k} == old(s).perm - {k}
      ensures m <= |src| - done && Refines(s, Stored(e, space, dstva, src[..done + m]))
      ensures ReadyAt(old(s), UPage(space, (dstva + done) / PGSIZE)) ==> ok && s == old(s).(pages := s.pages)
    {
      hide Inv, Refines, Stored, Writable, Bounded, Fits, Owned;
      ghost var f := Stored(e, space, dstva, src[..done]);
      var va := dstva + done;
      var k := UPage(space, va / PGSIZE);
      ok := MakeWritable(k, f);
      if !ok {
        return false, 0;
      }
      m := Least(PGSIZE - va % PGSIZE, |src| - done);
      RefinesSized(s, f);
      WritePage(k, va % PGSIZE, src[done..done + m], f);
      assert k.vpn * PGSIZE + va % PGSIZE == dstva + done;
      StoredTwice(s, e, space, dstva, src, done, done + m);
    }

    /** copyout: on success exactly the bytes src have been stored; on failure
        a prefix of them. No other process sees any of it. It fails only at a
        page that cannot be written, or for want of memory. */
    method Copyout(space: nat, dstva: nat, src: seq<nat>, ghost e: Eager) returns (ok: bool, n: nat)
      requires Valid() && Refines(s, e) && space in sz
      modifies `s
      ensures Valid() && s.shm == old(s).shm && s.extra == old(s).extra && s.tainted == old(s).tainted
      ensures n <= |src| && (ok <==> n == |src|)
      ensures Refines(s, Stored(e, space, dstva, src[..n])) && Stores(old(s), s, space, dstva, src[..n])
      ensures !ok ==> !CanWriteAll(old(s), sz, space, dstva, |src|) || |old(s).free| < 3 * Spanned(dstva, |src|)
      ensures Ready(old(s), space, dstva, |src|) ==> ok && s == old(s).(pages := s.pages)
    {
      hide Inv, Refines, Stored, Stores, Untouched, CanWrite, CanWriteAll, Writable, Bounded, Fits, Owned;
      StoredNothing(s, e, space, dstva);
      UntouchedFirst(s, space, dstva / PGSIZE);
      n := 0;
      ghost var turns := 0;
      while n < |src|
        invariant 0 <= n <= |src|
        invariant Valid() && s.shm == old(s).shm && s.extra == old(s).extra && s.tainted == old(s).tainted
        invariant Refines(s, Stored(e, space, dstva, src[..n]))
        invariant n < |src| ==> (dstva + n) / PGSIZE == dstva / PGSIZE + turns
        invariant Untouched(old(s), s, space, dstva / PGSIZE + turns, turns)
        invariant Ready(old(s), space, dstva, |src|) ==> s == old(s).(pages := s.pages)
      {
        ghost var before := s;
        var m;
        ok, m := CopyPiece(space, dstva, src, n, e);
        ReadyKept(old(s), before, space, dstva, |src|, n);
        if !ok {
          NotWritable(before, sz, UPage(space, (dstva + n) / PGSIZE));
          StoppedShort(old(s), before, sz, space, dstva, |src|, n, turns);
          StoresIs(old(s), s, e, space, dstva, src[..n]);
          return;
        }
        UntouchedStep(old(s), before, s, space, dstva / PGSIZE + turns, turns);
        turns := turns + 1;
        n := n + m;
      }
      StoresIs(old(s), s, e, space, dstva, src[..n]);
      ok := true;
    }

    /** A store instruction, with the page faults it may take: uvmcow first,
        then vmfault. It takes effect or the process is killed. */
    method UserStore(space: nat, va: nat, b: nat, ghost e: Eager) returns (ok: bool)
      requires Valid() && Refines(s, e) && space in sz
      modifies `s
      ensures Valid() && s.shm == old(s).shm && s.extra == old(s).extra && s.tainted == old(s).tainted
      ensures Refines(s, if ok then Stored(e, space, va, [b]) else e)
      ensures Stores(old(s), s, space, va, if ok then [b] else [])
      ensures ok ==> UPage(space, va / PGSIZE) in s.leaf && forall q :: SamePage(s, q, UPage(space, va / PGSIZE)) ==>
                View(s, q)[va % PGSIZE] == b
      ensures ok <==> Storable(old(s), sz, space, va)
    {
      hide Inv, Refines, Stored, Stores, Missing, Owned, SamePage, View;
      KeysMatch(s);
      MappedBelow(s.leaf, sz);
      hide Bounded, Fits;
      var k := UPage(space, va / PGSIZE);
      if !(k in s.leaf && s.perm[k].u && s.perm[k].w) {
        ok := Uvmcow(space, va, e);
        if !ok {
          ok := Vmfault(space, va, e);
          if !ok {
            StoredNothing(s, e, space, va);
            StoresIs(old(s), s, e, space, va, []);
            return;
          }
        }
        KeysMatch(s);
      }
      WritePage(k, va % PGSIZE, [b], e);
      OneByte(s, k, va % PGSIZE, b);
      assert k.vpn * PGSIZE + va % PGSIZE == va;
      StoresIs(old(s), s, e, space, va, [b]);
      ok := true;
    }

    /** A load instruction, with the page fault it may take: it shows what the
        eager machine holds, or the process is killed. */
    method UserLoad(space: nat, va: nat, ghost e: Eager) returns (r: Option<nat>)
      requires Valid() && Refines(s, e) && space in sz
      modifies `s
      ensures Valid() && Refines(s, e) && SameBut(old(s), s)
      ensures r.Some? <==> Loadable(old(s), sz, space, va)
      ensures r.Some? && Private(s, UPage(space, va / PGSIZE)) ==> r.value == e(UPage(space, va / PGSIZE))[va % PGSIZE]
      ensures Stores(old(s), s, space, va, []) && (r.Some? ==> r.value == Seen(s, space, va))
    {
      hide Inv, Missing, Bounded, Fits, Owned, Stores;
      KeysMatch(s);
      var k := UPage(space, va / PGSIZE);
      if !(k in s.leaf && s.perm[k].u && s.perm[k].r) {
        var ok := Vmfault(space, va, e);
        StoredNothing(s, e, space, va);
        StoresIs(old(s), s, e, space, va, []);
        if !ok {
          return None;
        }
        KeysMatch(s);
      } else {
        StoredNothing(s, e, space, va);
        StoresIs(s, s, e, space, va, []);
      }
      assert View(s, k) == s.pages[s.leaf[k]];
      r := Some(s.pages[s.leaf[k]][va % PGSIZE]);
    }

    /** One pass of copyin's loop: what the page at va holds. */
    method ReadPiece(space: nat, va: nat, n: nat, ghost e: Eager) returns (ok: bool, piece: seq<nat>)
      requires Valid() && Refines(s, e) && space in sz
      modifies `s
      ensures Valid() && Refines(s, e) && SameBut(old(s), s)
      ensures var k := UPage(space, va / PGSIZE);
        && (ok <==> Reachable(old(s), sz, k))
        && s.leaf - {k} == old(s).leaf - {k} && s.perm - {k} == old(s).perm - {k}
      ensures ok ==> |piece| == Least(PGSIZE - va % PGSIZE, n) && |s.free| >= |old(s).free| - 3
      ensures ok ==> forall i :: 0 <= i < |piece| ==> Reads(s.tainted, e, space, va + i, piece[i])
      ensures !ok ==> piece == []
    {
      hide Inv, Refines, Reachable, Bounded, Fits, Owned;
      var k := UPage(space, va / PGSIZE);
      KeysMatch(s);
      ok := FaultIn(k, e);
      AwayFrom(old(s), s, k);
      if !ok {
        return false, [];
      }
      KeysMatch(s);
      var m := Least(PGSIZE - va % PGSIZE, n);
      piece := s.pages[s.leaf[k]][va % PGSIZE..va % PGSIZE + m];
      forall i | 0 <= i < m ensures Reads(s.tainted, e, space, va + i, piece[i]) {
        ReadsPage(s, e, space, va, i);
      }
    }

    /** copyin: the bytes that the eager machine holds, or a page on the way
        that cannot be had. */
    method Copyin(space: nat, srcva: nat, len: nat, ghost e: Eager) returns (ok: bool, dst: seq<nat>)
      requires Valid() && Refines(s, e) && space in sz
      modifies `s
      ensures Valid() && Refines(s, e) && SameBut(old(s), s)
      ensures |dst| <= len && (ok <==> |dst| == len)
      ensures forall i :: 0 <= i < |dst| ==> Reads(s.tainted, e, space, srcva + i, dst[i])
      ensures Stores(old(s), s, space, srcva, [])
      ensures forall i :: 0 <= i < |dst| ==> ReadsSeen(s, space, srcva + i, dst[i])
      ensures !ok ==> !CanReadAll(old(s), sz, space, srcva, len) || |old(s).free| < 3 * Spanned(srcva, len)
    {
      hide Inv, Refines, Bounded, Fits, Owned, Untouched, Reads, Reachable, CanRead, CanReadAll, Stores, ReadsSeen;
      UntouchedFirst(s, space, srcva / PGSIZE);
      dst := [];
      ghost var turns := 0;
      while |dst| < len
        invariant |dst| <= len && Valid() && Refines(s, e) && SameBut(old(s), s)
        invariant |dst| < len ==> (srcva + |dst|) / PGSIZE == srcva / PGSIZE + turns
        invariant Untouched(old(s), s, space, srcva / PGSIZE + turns, turns)
        invariant forall i :: 0 <= i < |dst| ==> Reads(s.tainted, e, space, srcva + i, dst[i])
        decreases len - |dst|
      {
        ghost var before := s;
        var piece;
        ok, piece := ReadPiece(space, srcva + |dst|, len - |dst|, e);
        if !ok {
          NotReachable(before, sz, UPage(space, (srcva + |dst|) / PGSIZE));
          ReadShort(old(s), before, sz, space, srcva, len, |dst|, turns);
          AllSeen(old(s), s, e, space, srcva, dst);
          return;
        }
        UntouchedStep(old(s), before, s, space, srcva / PGSIZE + turns, turns);
        ReadsJoin(s.tainted, e, space, srcva, dst, piece);
        turns := turns + 1;
        dst := dst + piece;
      }
      AllSeen(old(s), s, e, space, srcva, dst);
      ok := true;
    }

    // ---- fork ----

    /** is_shared_page: the page is in shm_table now. */
    method IsSharedPage(pa: Pa) returns (yes: bool)
      requires Inv(s)
      ensures yes <==> pa in s.shm.Values
    {
      var i := 0;
      yes := false;
      while i < SHM_MAX
        invariant 0 <= i <= SHM_MAX
        invariant !yes && forall j :: 0 <= j < i && j in s.shm ==> s.shm[j] != pa
      {
        if i in s.shm && s.shm[i] == pa {
          return true;
        }
        i := i + 1;
      }
      forall j | j in s.shm ensures s.shm[j] != pa {
        assert j < SHM_MAX;
      }
    }

    /** A writable page that is not in shm_table loses write permission and
        becomes copy-on-write. */
    method MarkCow(k: UPage) returns (flags: Perm)
      requires Inv(s) && k in s.leaf && k in s.perm
      modifies `s
      ensures s == CowMarked(old(s), k) && flags == CowPerm(old(s), k)
    {
      flags := s.perm[k];
      CowMarkedSame(s, k);
      if flags.w {
        var inShm := IsSharedPage(s.leaf[k]);
        if !inShm {
          flags := flags.(w := false, c := true);
          s := s.(perm := s.perm[k := flags]);
        }
      }
    }

    /** One pass of uvmcopy's loop over a mapped page. The parent's entry may
        have become copy-on-write even if the child's could not be made. */
    method ShareOne(k: UPage, child: UPage, ghost e: Eager) returns (ok: bool, ghost mid: State)
      requires Inv(s) && Refines(s, e) && k in s.leaf && k in s.perm && child !in s.leaf && child.vpn < TRAPFRAME
      modifies `s
      ensures Inv(s) && Quiet(CowMarked(old(s), k), mid) && k in mid.leaf && k in mid.perm && Sized(mid)
      ensures AddsFor(old(s).own, s.own, child.space)
      ensures ok ==> s == ShareLeaf(mid, k, child) && Refines(s, Set(e, child, e(k)))
      ensures !ok ==> s == mid && Refines(s, e) && |old(s).free| < 2
      ensures |s.free| >= |old(s).free| - 2
    {
      hide Inv, Refines, Quiet;
      CowMarkedKeeps(s, k, e);
      var pa := s.leaf[k];
      var flags := MarkCow(k);
      assert s.free == old(s).free;
      hide CowMarked, AddsFor, AddsPath;
      ok := WalkAlloc(child.space, child.vpn);
      PathAdds(old(s).own, s.own, child.space, child.vpn);
      mid := s;
      ShareStep(old(s), mid, k, child, e);
      if ok {
        s := s.(leaf := s.leaf[child := pa], perm := s.perm[child := flags],
                tainted := if k in s.tainted then s.tainted + {child} else s.tainted);
        s := s.(ref := s.ref[pa := s.ref[pa] + 1]);
        assert s == ShareLeaf(mid, k, child);
      }
    }

    /** uvmcopy's error exit: everything mapped for the child so far goes. */
    method AbandonCopy(parent: nat, child: nat, v: nat, ghost s0: State, ghost before: State, ghost e: Eager)
      requires Inv(s) && Refines(s, Copied(e, parent, child, v)) && Refines(s0, e) && parent != child
      requires Forked(s0, before, parent, child, v)
      requires UPage(parent, v) in before.leaf && UPage(parent, v) in before.perm
      requires Quiet(CowMarked(before, UPage(parent, v)), s)
      requires forall k :: k in s0.leaf ==> k.space != child
      requires v <= TRAPFRAME && before.tainted == Spread(s0.tainted, parent, child, v)
      modifies `s
      ensures s.tainted == s0.tainted
      ensures Inv(s) && Refines(s, e) && s.leaf == s0.leaf && WriteKept(s0.perm, s.perm)
      ensures s.shm == before.shm && s.extra == before.extra && s.own == old(s).own
    {
      hide Inv, Refines, Quiet, Forked, Outside, WriteKept, Copied, Dropped, Cleaned, Spread;
      RefinesSized(s0, e);
      SpreadStep(s0.tainted, parent, child, v);
      QuietSame(CowMarked(before, UPage(parent, v)), s);
      hide CowMarked;
      ForkedUndo(s0, before, s, parent, child, v);
      UnmapRange(child, 0, v, Copied(e, parent, child, v));
      CopiedBack(s0, s, e, parent, child, v);
    }

    /** One pass of uvmcopy's loop: page v is shared with the child, if the
        parent has it, or everything done for the child is undone. */
    method CopyPage(parent: nat, child: nat, v: nat, ghost s0: State, ghost e: Eager) returns (ok: bool)
      requires Inv(s) && Refines(s, Copied(e, parent, child, v)) && Refines(s0, e) && parent != child
      requires Forked(s0, s, parent, child, v) && v < TRAPFRAME && forall k :: k in s0.leaf ==> k.space != child
      requires s.tainted == Spread(s0.tainted, parent, child, v)
      modifies `s
      ensures s.tainted == if ok then Spread(s0.tainted, parent, child, v + 1) else s0.tainted
      ensures Inv(s) && s.shm == old(s).shm && s.extra == old(s).extra && AddsFor(old(s).own, s.own, child)
      ensures ok ==> Refines(s, Copied(e, parent, child, v + 1)) && Forked(s0, s, parent, child, v + 1)
      ensures ok ==> |s.free| >= |old(s).free| - 2
      ensures !ok ==> Refines(s, e) && s.leaf == s0.leaf && WriteKept(s0.perm, s.perm) && |old(s).free| < 2
    {
      hide Inv, Refines, Quiet, Forked, Outside, WriteKept, Copied, Dropped, Set, CowMarked, Sized, AddsFor, Spread;
      RefinesTaint(s0, e, child);
      SpreadStep(s0.tainted, parent, child, v);
      var k := UPage(parent, v);
      KeysMatch(s);
      ForkedAt(s0, s, parent, child, v);
      AddsNone(s.own, child);
      ok := true;
      if k in s.leaf {
        ghost var mid := s;
        ok, mid := ShareOne(k, UPage(child, v), Copied(e, parent, child, v));
        if !ok {
          AbandonCopy(parent, child, v, s0, old(s), e);
          return;
        }
        ForkedStep(s0, old(s), mid, parent, child, v);
        MarkedTaint(old(s), k, mid);
        CopiedStep(s, e, parent, child, v);
      } else {
        TaintMapped(s);
        CopiedHole(s, e, parent, child, v);
        ForkedHole(s0, s, parent, child, v);
      }
    }

    /** uvmcopy: the child sees what it would see if every page had been
        copied, while both share the pages; or the child has nothing. */
    method Uvmcopy(parent: nat, child: nat, n: nat, ghost e: Eager) returns (ok: bool)
      requires Inv(s) && Refines(s, e) && parent != child && n <= TRAPFRAME
      requires forall k :: k in s.leaf ==> k.space != child
      modifies `s
      ensures s.tainted == if ok then Spread(old(s).tainted, parent, child, n) else old(s).tainted
      ensures Inv(s) && s.shm == old(s).shm && s.extra == old(s).extra && AddsFor(old(s).own, s.own, child)
      ensures ok ==> Refines(s, Copied(e, parent, child, n)) && Forked(old(s), s, parent, child, n)
      ensures !ok ==> Refines(s, e) && s.leaf == old(s).leaf && WriteKept(old(s).perm, s.perm)
      ensures !ok ==> |old(s).free| < 2 * n
    {
      hide Inv, Refines, Forked, WriteKept, Copied, AddsFor, Spread;
      RefinesTaint(s, e, child);
      SpreadStep(s.tainted, parent, child, 0);
      AddsNone(s.own, child);
      CopiedNone(s, e, parent, child);
      ForkedNone(s, parent, child);
      var v := 0;
      while v < n
        invariant 0 <= v <= n && Inv(s) && Refines(s, Copied(e, parent, child, v))
        invariant Forked(old(s), s, parent, child, v) && AddsFor(old(s).own, s.own, child)
        invariant s.tainted == Spread(old(s).tainted, parent, child, v)
        invariant s.shm == old(s).shm && s.extra == old(s).extra && |s.free| >= |old(s).free| - 2 * v
      {
        ghost var before := s.own;
        ok := CopyPage(parent, child, v, old(s), e);
        AddsMore(old(s).own, before, s.own, child);
        if !ok {
          return;
        }
        v := v + 1;
      }
      ok := true;
    }

    // ---- address spaces ----

    /** The kernel gives up a page of its own; no process notices. */
    method DropOwn(o: Owner, ghost e: Eager)
      requires Inv(s) && Refines(s, e) && o in s.own
      modifies `s
      ensures Inv(s) && Refines(s, e) && OnlyOwn(old(s), s) && s.own == old(s).own - {o}
    {
      hide Inv, Refines;
      OwnReleased(s, o, e);
      Kfree(s.own[o]);
      s := s.(own := s.own - {o});
    }

    /** freewalk: every page-table page of the space is released, once. It
        panics if a leaf entry is left, which the caller rules out. */
    method FreeTables(space: nat, ghost e: Eager)
      requires Inv(s) && Refines(s, e) && forall k :: k in s.leaf ==> k.space != space
      modifies `s
      ensures Inv(s) && Refines(s, e) && OnlyOwn(old(s), s)
      ensures s.own == map o | o in old(s).own && !TableOf(o, space) :: old(s).own[o]
    {
      hide Inv, Refines;
      while exists o :: o in s.own && TableOf(o, space)
        invariant Inv(s) && Refines(s, e) && OnlyOwn(old(s), s)
        invariant forall o :: o in s.own ==> o in old(s).own && s.own[o] == old(s).own[o]
        invariant forall o :: o in old(s).own && !TableOf(o, space) ==> o in s.own
        decreases |s.own|
      {
        var o :| o in s.own && TableOf(o, space);
        ghost var before := s.own;
        DropOwn(o, e);
        assert before.Keys == s.own.Keys + {o};
      }
    }

    /** freeproc: the space loses its trapframe, all its memory and its page
        table. Because every mapping lies below the size, no leaf is left for
        freewalk to meet. */
    method FreeSpace(space: nat, ghost e: Eager)
      requires Valid() && Refines(s, e) && space in sz
      modifies `s, `sz
      ensures Valid() && sz == old(sz) - {space}
      ensures Refines(s, Dropped(e, space, 0, PagesOf(old(sz)[space])))
      ensures forall k :: k in s.leaf <==> k in old(s).leaf && k.space != space
      ensures forall k :: k in s.leaf ==> s.leaf[k] == old(s).leaf[k] && k in s.perm && k in old(s).perm
                                          && s.perm[k] == old(s).perm[k]
      ensures forall o :: o in s.own <==> o in old(s).own && !Belongs(o, space)
      ensures s.tainted == Cleaned(old(s).tainted, space, 0, PagesOf(old(sz)[space]))
      ensures s.shm == old(s).shm && s.extra == old(s).extra
    {
      hide Inv, Refines, Dropped;
      KeysMatch(s);
      FitsPages(sz, space);
      if Frame(space) in s.own {
        DropOwn(Frame(space), e);
      }
      UnmapRange(space, 0, PagesOf(sz[space]), e);
      FreeTables(space, Dropped(e, space, 0, PagesOf(sz[space])));
      sz := sz - {space};
    }

    /** kalloc of a trapframe page. */
    method AllocFrame(space: nat) returns (ok: bool)
      requires Inv(s) && Frame(space) !in s.own
      modifies `s
      ensures Inv(s) && Quiet(old(s), s)
      ensures ok <==> old(s).free != []
      ensures ok ==> Frame(space) in s.own && s.own == old(s).own[Frame(space) := s.own[Frame(space)]]
                     && |s.free| == |old(s).free| - 1
      ensures !ok ==> s == old(s)
    {
      hide Inv, Quiet, Fill;
      var mem := Kalloc();
      if mem.None? {
        QuietSelf(s);
        return false;
      }
      QuietAlloc(old(s), Frame(space), Fill(5));
      s := s.(own := s.own[Frame(space) := mem.value], extra := s.extra - multiset{mem.value});
      assert s == PutOwn(Overwrite(Alloc(old(s)), mem.value, Fill(5)), Frame(space), mem.value);
      ok := true;
    }

    /** proc_pagetable: an empty space with the page-table pages that reach the
        trampoline and the trapframe, or nothing. */
    method NewTable(space: nat, ghost e: Eager) returns (ok: bool)
      requires Inv(s) && Refines(s, e)
      requires forall k :: k in s.leaf ==> k.space != space
      requires forall o :: o in s.own ==> !TableOf(o, space)
      modifies `s
      ensures Inv(s) && Refines(s, e) && OnlyOwn(old(s), s) && Grows(old(s).own, s.own)
      ensures ok <==> |old(s).free| >= 3
      ensures ok ==> |s.free| == |old(s).free| - 3
                     && s.own.Keys == old(s).own.Keys + {Root(space), MidOf(space, TRAPFRAME), LastOf(space, TRAPFRAME)}
      ensures !ok ==> s.own == old(s).own
    {
      hide Inv, Refines, Quiet;
      ok := AllocTable(Root(space));
      QuietKept(old(s), s, e);
      if !ok {
        return;
      }
      ghost var mid := s;
      ok := WalkAlloc(space, TRAPFRAME);
      QuietKept(mid, s, e);
      if !ok {
        FreeTables(space, e);
        assert s.own == old(s).own;
      }
    }

    /** The memory half of allocproc: a trapframe and an empty page table, or
        nothing. */
    method NewSpace(space: nat, ghost e: Eager) returns (ok: bool)
      requires Valid() && Refines(s, e) && space !in sz
      modifies `s
      ensures Inv(s) && Bounded(s.leaf, sz) && Refines(s, e) && OnlyOwn(old(s), s) && Grows(old(s).own, s.own)
      ensures ok <==> |old(s).free| >= 4
      ensures ok ==> |s.free| == |old(s).free| - 4
                     && s.own.Keys == old(s).own.Keys
                                      + {Frame(space), Root(space), MidOf(space, TRAPFRAME), LastOf(space, TRAPFRAME)}
      ensures !ok ==> s.own == old(s).own
    {
      hide Inv, Refines, Quiet, Bounded, Owned;
      NobodyIn(s.leaf, sz, space);
      NoneOwned(s.own, sz, space);
      ok := AllocFrame(space);
      QuietKept(old(s), s, e);
      if !ok {
        return;
      }
      ok := NewTable(space, e);
      if !ok {
        DropOwn(Frame(space), e);
        assert s.own == old(s).own;
      }
    }

    /** userinit: a space of size 0. */
    method Userinit(space: nat, ghost e: Eager) returns (ok: bool)
      requires Valid() && Refines(s, e) && space !in sz
      modifies `s, `sz
      ensures Valid() && Refines(s, e) && OnlyOwn(old(s), s) && Grows(old(s).own, s.own)
      ensures ok <==> |old(s).free| >= 4
      ensures sz == if ok then old(sz)[space := 0] else old(sz)
      ensures ok ==> |s.free| == |old(s).free| - 4
                     && s.own.Keys == old(s).own.Keys
                                      + {Frame(space), Root(space), MidOf(space, TRAPFRAME), LastOf(space, TRAPFRAME)}
      ensures !ok ==> s.own == old(s).own
    {
      hide Inv, Refines, Owned;
      ok := NewSpace(space, e);
      if ok {
        OwnedNew(old(s).own, s.own, sz, space, 0);
        sz := sz[space := 0];
      }
    }

    /** The memory half of kfork. */
    method Fork(parent: nat, child: nat, ghost e: Eager) returns (ok: bool)
      requires Valid() && Refines(s, e) && parent in sz && child !in sz
      modifies `s, `sz
      ensures Valid() && s.shm == old(s).shm && s.extra == old(s).extra
      ensures s.tainted == if ok then Spread(old(s).tainted, parent, child, PagesOf(old(sz)[parent]))
                           else old(s).tainted
      ensures ok ==>
                && sz == old(sz)[child := old(sz)[parent]]
                && Refines(s, Copied(e, parent, child, PagesOf(old(sz)[parent])))
                && Forked(old(s), s, parent, child, PagesOf(old(sz)[parent]))
      ensures !ok ==>
                && sz == old(sz) && Refines(s, e) && s.leaf == old(s).leaf && WriteKept(old(s).perm, s.perm)
                && |old(s).free| < 4 + 2 * PagesOf(old(sz)[parent])
    {
      hide Inv, Refines, Copied, Forked, WriteKept, AddsFor, Owned, Spread;
      KeysMatch(s);
      FitsPages(sz, parent);
      NobodyIn(s.leaf, sz, child);
      ok := NewSpace(child, e);
      if !ok {
        SameWrites(s.perm);
        return;
      }
      ghost var mid := s;
      OwnedNew(old(s).own, s.own, sz, child, sz[parent]);
      ok := Uvmcopy(parent, child, PagesOf(sz[parent]), e);
      OwnedMore(mid.own, s.own, sz[child := sz[parent]], child);
      if ok {
        ForkedBounded(mid, s, sz, parent, child);
        ForkedFrom(old(s), mid, s, parent, child, PagesOf(sz[parent]));
        sz := sz[child := sz[parent]];
      } else {
        ghost var own := s.own;
        Discard(child, e);
        OwnedLess(own, s.own, sz, child, sz[parent]);
      }
    }

    /** freeproc of a process that never ran and has no memory. */
    method Discard(space: nat, ghost e: Eager)
      requires Inv(s) && Refines(s, e) && forall k :: k in s.leaf ==> k.space != space
      modifies `s
      ensures Inv(s) && Refines(s, e) && OnlyOwn(old(s), s)
      ensures s.own == map o | o in old(s).own && !Belongs(o, space) :: old(s).own[o]
    {
      hide Inv, Refines;
      if Frame(space) in s.own {
        DropOwn(Frame(space), e);
      }
      FreeTables(space, e);
    }

    // ---- shared memory ----

    /** A new page for id in frame i, with a reference in hand besides the
        table's own. */
    method ShmCreate(i: nat, id: int, ghost e: Eager) returns (r: Option<Pa>)
      requires Inv(s) && Refines(s, e) && i !in s.shm && i < SHM_MAX
      modifies `s, `shmId, `shmRef
      ensures Inv(s) && Refines(s, e)
      ensures r.None? <==> old(s).free == []
      ensures r.None? ==> s == old(s) && shmId == old(shmId) && shmRef == old(shmRef)
      ensures r.Some? ==>
                && |s.free| == |old(s).free| - 1
                && s.extra == old(s).extra + multiset{r.value} && r.value in s.shared
                && s.shm == old(s).shm[i := r.value] && shmId == old(shmId)[i := id] && shmRef == old(shmRef)[i := 1]
                && s.leaf == old(s).leaf && s.perm == old(s).perm && s.own == old(s).own && s.tainted == old(s).tainted
    {
      hide Inv, Refines, ZeroPage;
      r := KallocZero(e);
      if r.Some? {
        ShmCreated(old(s), i, e);
        PutBack(old(s).extra, r.value);
        var pa := r.value;
        shmId, shmRef := shmId[i := id], shmRef[i := 1];
        s := s.(shm := s.shm[i := pa], extra := s.extra - multiset{pa}, shared := s.shared + {pa});
        s := s.(ref := s.ref[pa := s.ref[pa] + 1], extra := s.extra + multiset{pa});
        assert s == ShmNew(old(s), i);
      }
    }

    /** The first frame that is in use for id, or SHM_MAX. */
    method FindShm(id: int) returns (i: nat)
      requires Inv(s) && ShmTable()
      ensures i <= SHM_MAX
      ensures i < SHM_MAX ==> i in s.shm && shmId[i] == id
      ensures i == SHM_MAX ==> forall j :: j in s.shm ==> shmId[j] != id
    {
      ShmIndex(s);
      i := 0;
      while i < SHM_MAX && !(i in s.shm && shmId[i] == id)
        invariant 0 <= i <= SHM_MAX
        invariant forall j :: 0 <= j < i && j in s.shm ==> shmId[j] != id
      {
        i := i + 1;
      }
    }

    /** The part of shm_open under shm_table.lock: the page for id, found in
        frame i or created there, with a new reference in hand for the mapping
        to come. */
    method ShmAcquire(id: int, ghost e: Eager) returns (r: Option<Pa>, i: nat)
      requires Inv(s) && Refines(s, e) && ShmTable()
      modifies `s, `shmId, `shmRef
      ensures Inv(s) && Refines(s, e) && ShmTable()
      ensures s.leaf == old(s).leaf && s.perm == old(s).perm && s.own == old(s).own && s.tainted == old(s).tainted
      ensures r.Some? <==> Acquires(old(s), old(shmId), id)
      ensures r.None? ==> s == old(s) && shmId == old(shmId) && shmRef == old(shmRef)
      ensures r.Some? ==>
                && |s.free| == |old(s).free| - (if Known(old(shmId), id) then 0 else 1)
                && s.extra == old(s).extra + multiset{r.value} && r.value in s.shared
                && i in s.shm && s.shm[i] == r.value && shmId[i] == id
      ensures r.Some? && Known(old(shmId), id) ==> s.shm == old(s).shm && shmId == old(shmId)
      ensures r.Some? ==> (i in old(s).shm <==> Known(old(shmId), id))
      ensures r.Some? ==>
                && s.shm == old(s).shm[i := r.value] && shmId == old(shmId)[i := id]
                && shmRef == old(shmRef)[i := if i in old(shmRef) then old(shmRef)[i] + 1 else 1]
    {
      hide Inv, Refines;
      i := FindShm(id);
      if i < SHM_MAX {
        var pa := s.shm[i];
        IncrefKeeps(s, i, e);
        shmRef := shmRef[i := shmRef[i] + 1];
        s := s.(ref := s.ref[pa := s.ref[pa] + 1], extra := s.extra + multiset{pa});
        return Some(pa), i;
      }
      i := 0;
      while i < SHM_MAX && i in s.shm
        invariant 0 <= i <= SHM_MAX && forall j :: 0 <= j < i ==> j in s.shm
      {
        i := i + 1;
      }
      if i == SHM_MAX {
        return None, i;
      }
      r := ShmCreate(i, id, e);
    }

    /** The second half of shm_open: the page goes just above the process's
        memory. */
    method ShmMap(space: nat, pa: Pa, ghost e: Eager) returns (ok: bool)
      requires Valid() && Refines(s, e) && space in sz && PagesOf(sz[space]) < TRAPFRAME
      requires pa in s.extra && pa in s.shared
      modifies `s, `sz
      ensures Valid() && Refines(s, e) && s.shm == old(s).shm
      ensures ok <==> Missing(old(s).own, space, PagesOf(old(sz)[space])) <= |old(s).free|
      ensures !ok ==> sz == old(sz) && s.leaf == old(s).leaf && s.perm == old(s).perm && s.extra == old(s).extra
                      && s.tainted == old(s).tainted
      ensures var k := UPage(space, PagesOf(old(sz)[space]));
        ok ==>
          && sz == old(sz)[space := k.vpn * PGSIZE + PGSIZE] && s.leaf == old(s).leaf[k := pa]
          && s.perm == old(s).perm[k := Perm(true, true, false, true, false)]
          && s.extra == old(s).extra - multiset{pa} && s.tainted == old(s).tainted + {k}
    {
      hide Inv, Refines, Quiet, Bounded, ZeroPage, Missing, AddsFor, Owned;
      var k := UPage(space, PagesOf(sz[space]));
      OneMorePage(s.leaf, sz, space, pa);
      KeysMatch(s);
      ghost var mid := s;
      ok, mid := Mappages(k, pa, Perm(true, true, false, true, false), e);
      OwnedMore(old(s).own, s.own, sz, space);
      QuietSame(old(s), mid);
      if ok {
        OwnedSame(s.own, sz, space, k.vpn * PGSIZE + PGSIZE);
        sz := sz[space := k.vpn * PGSIZE + PGSIZE];
      }
    }

    /** shm_open: the page of frame i appears just above the process's memory,
        in exactly the cases that Verdict tells. If it can not be mapped, the
        reference taken for the mapping is lost: it stays counted although
        nothing holds it. */
    method ShmOpen(space: nat, id: int, ghost e: Eager) returns (r: OpenResult, i: nat)
      requires Valid() && Refines(s, e) && ShmTable() && space in sz
      modifies `s, `sz, `shmId, `shmRef
      ensures Valid() && Refines(s, e) && ShmTable()
      ensures r == Verdict(old(s), old(sz)[space], old(shmId), space, id)
      ensures r.NoPage? ==> s.shm == old(s).shm && shmId == old(shmId) && shmRef == old(shmRef)
      ensures !r.NoPage? ==> i in s.shm && shmId == old(shmId)[i := id] && s.shm == old(s).shm[i := s.shm[i]]
                             && shmRef == old(shmRef)[i := if i in old(shmRef) then old(shmRef)[i] + 1 else 1]
                             && (i in old(s).shm <==> Known(old(shmId), id))
      ensures !r.NoPage? && Known(old(shmId), id) ==> s.shm == old(s).shm && shmId == old(shmId)
      ensures var k := UPage(space, PagesOf(old(sz)[space]));
        r.Opened? ==>
          && sz == old(sz)[space := r.va + PGSIZE] && s.leaf == old(s).leaf[k := s.shm[i]]
          && s.perm == old(s).perm[k := Perm(true, true, false, true, false)] && s.tainted == old(s).tainted + {k}
      ensures !r.Opened? ==> sz == old(sz) && s.leaf == old(s).leaf && s.perm == old(s).perm
      ensures !r.Opened? ==> s.tainted == old(s).tainted
      ensures r.NoPage? || r.Opened? ==> s.extra == old(s).extra
      ensures r.NoTables? || r.Remapped? ==> s.extra == old(s).extra + multiset{s.shm[i]}
    {
      hide Inv, Refines, Bounded, PagesOf, Known, TableFull, Missing, Owned;
      var pa;
      pa, i := ShmAcquire(id, e);
      if pa.None? {
        return NoPage, i;
      }
      var vpn := PagesOf(sz[space]);
      if vpn >= TRAPFRAME {
        return Remapped, i;
      }
      var ok := ShmMap(space, pa.value, e);
      if !ok {
        return NoTables, i;
      }
      PutBack(old(s).extra, pa.value);
      r := Opened(vpn * PGSIZE);
    }

    /** shm_close: the last close takes the page out of the table; processes
        that still map it keep it. */
    method ShmClose(id: int, ghost e: Eager) returns (ok: bool, i: nat)
      requires Valid() && Refines(s, e) && ShmTable()
      modifies `s, `shmId, `shmRef
      ensures Valid() && Refines(s, e) && ShmTable()
      ensures s.leaf == old(s).leaf && s.perm == old(s).perm && s.own == old(s).own && s.extra == old(s).extra
      ensures s.tainted == old(s).tainted
      ensures ok <==> Known(old(shmId), id)
      ensures !ok ==> s == old(s) && shmId == old(shmId) && shmRef == old(shmRef)
      ensures ok ==> i in old(s).shm && old(shmId)[i] == id
      ensures ok && old(shmRef)[i] == 1 ==>
                s.shm == old(s).shm - {i} && shmId == old(shmId) - {i} && shmRef == old(shmRef) - {i}
      ensures ok && old(shmRef)[i] != 1 ==>
                s == old(s) && shmId == old(shmId) && shmRef == old(shmRef)[i := old(shmRef)[i] - 1]
    {
      hide Inv, Refines, Bounded, Free;
      i := FindShm(id);
      if i == SHM_MAX {
        return false, i;
      }
      shmRef := shmRef[i := shmRef[i] - 1];
      if shmRef[i] == 0 {
        ShmReleased(s, i, e);
        FreeFrame(s, s.shm[i]);
        Kfree(s.shm[i]);
        s := s.(shm := s.shm - {i});
        shmId, shmRef := shmId - {i}, shmRef - {i};
      }
      ok := true;
    }

    // ---- ramdisk ----

    /** rd_walk: the ramdisk's page, allocated on demand; a hole without
        allocation and an index past the end give none. */
    method RdWalk(idx: nat, alloc: bool, ghost e: Eager) returns (r: Option<Pa>)
      requires Valid() && Refines(s, e)
      modifies `s
      ensures Valid() && Refines(s, e) && OnlyOwn(old(s), s)
      ensures r.Some? <==> idx < RD_PAGES && (RdSlot(idx) in old(s).own || (alloc && old(s).free != []))
      ensures r.Some? ==> RdSlot(idx) in s.own && s.own == old(s).own[RdSlot(idx) := r.value]
      ensures r.Some? && RdSlot(idx) !in old(s).own ==> Sized(s) && s.pages[r.value] == ZeroPage()
      ensures r.None? || RdSlot(idx) in old(s).own ==> s == old(s)
    {
      hide Inv, Refines, Quiet;
      if idx >= RD_PAGES {
        return None;
      }
      if RdSlot(idx) in s.own {
        assert s.own[RdSlot(idx) := s.own[RdSlot(idx)]] == s.own;
        return Some(s.own[RdSlot(idx)]);
      }
      if !alloc {
        return None;
      }
      var ok := AllocTable(RdSlot(idx));
      QuietKept(old(s), s, e);
      if !ok {
        return None;
      }
      r := Some(s.own[RdSlot(idx)]);
    }

    /** sys_load_ramdisk. */
    method LoadRamdisk() returns (ok: bool)
      modifies `loaded
      ensures loaded && (ok <==> !old(loaded))
    {
      ok := !loaded;
      loaded := true;
    }

    /** sys_unload_ramdisk: every page of the ramdisk is given back. */
    method UnloadRamdisk(ghost e: Eager) returns (ok: bool)
      requires Valid() && Refines(s, e)
      modifies `s, `loaded
      ensures Valid() && Refines(s, e) && OnlyOwn(old(s), s)
      ensures !loaded && (ok <==> old(loaded))
      ensures ok ==> s.own == map o | o in old(s).own && !o.RdSlot? :: old(s).own[o]
      ensures !ok ==> s == old(s)
    {
      hide Inv, Refines;
      if !loaded {
        return false;
      }
      loaded := false;
      var i := 0;
      while i < RD_PAGES
        invariant 0 <= i <= RD_PAGES && Inv(s) && Refines(s, e) && OnlyOwn(old(s), s)
        invariant s.own == map o | o in old(s).own && !(o.RdSlot? && o.slot < i) :: old(s).own[o]
        invariant !loaded
      {
        if RdSlot(i) in s.own {
          DropOwn(RdSlot(i), e);
        }
        i := i + 1;
      }
      ok := true;
    }

    // ---- boot ----

    /** kinit: after freerange every page above the kernel image is free. */
    constructor (kernelPages: nat)
      requires kernelPages <= NPAGES
      ensures Valid() && ShmTable() && sz == map[] && s.leaf == map[] && s.shm == map[] && s.extra == multiset{}
      ensures s.tainted == {} && s.own == KernelImage(kernelPages) && shmId == map[] && !loaded
      ensures |s.free| == NPAGES - kernelPages && forall pa: Pa :: pa in s.free <==> kernelPages <= pa
      ensures Refines(s, (k: UPage) => ZeroPage())
    {
      s := PageRefs.State(seq(NPAGES, _ => Fill(0)), seq(NPAGES, i => if i < kernelPages then 1 else 0), [],
                          map[], map[], KernelImage(kernelPages), map[], multiset{}, {}, {});
      sz, shmId, shmRef, loaded := map[], map[], map[], false;
      new;
      Freerange(kernelPages);
      BootInv(s, kernelPages);
    }

    /** freerange: each page gets count 1 and is freed. */
    method Freerange(from: nat)
      requires Sized(s) && from <= NPAGES && s.free == []
      requires forall pa: Pa :: s.ref[pa] == if pa < from then 1 else 0
      requires s.shared == {}
      modifies `s
      ensures Sized(s) && s == old(s).(free := s.free, ref := s.ref, pages := s.pages)
      ensures s.ref == old(s).ref && |s.free| == NPAGES - from
      ensures forall i, j :: 0 <= i < j < |s.free| ==> s.free[i] != s.free[j]
      ensures forall pa: Pa :: pa in s.free <==> from <= pa
    {
      var p := from;
      while p < NPAGES
        invariant from <= p <= NPAGES && Sized(s) && s.ref == old(s).ref && |s.free| == p - from
        invariant s == old(s).(free := s.free, ref := s.ref, pages := s.pages)
        invariant forall i, j :: 0 <= i < j < |s.free| ==> s.free[i] != s.free[j]
        invariant forall pa: Pa :: pa in s.free <==> from <= pa < p
      {
        assert p as Pa !in s.free;
        s := s.(ref := s.ref[p := 1]);
        Kfree(p);
        assert s.ref == old(s).ref;
        p := p + 1;
      }
    }
  }

  /** Entry k is cleared and its reference dropped. */
  function Unmapped(s: State, k: UPage): State
    requires Sized(s) && k in s.leaf && s.ref[s.leaf[k]] > 0
  {
    Free(UnmapLeaf(s, k), s.leaf[k]).(extra := s.extra)
  }

  lemma UnmapFree(s: State, k: UPage, e: Eager)
    requires Inv(s) && Refines(s, e) && k in s.leaf
    ensures Sized(s) && s.ref[s.leaf[k]] > 0
    ensures Inv(Unmapped(s, k)) && Refines(Unmapped(s, k), Set(e, k, ZeroPage()))
  {
    var pa := s.leaf[k];
    MappedPage(s, k);
    UnmapLeafInv(s, k);
    UnmapLeafRefines(s, k, e);
    var t := UnmapLeaf(s, k);
    FreeInv(t, pa);
    FreeRefines(t, pa, Set(e, k, ZeroPage()));
    hide Inv, Refines;
    PutBack(s.extra, pa);
    assert Unmapped(s, k) == Free(t, pa);
  }

  /** A fresh copy of k's page is made and k repointed to it; the reference to
      the old page is in hand. */
  function CowSwitched(s: State, k: UPage): State
    requires Sized(s) && k in s.leaf && |s.free| > 0
  {
    Repoint(Overwrite(Alloc(s), s.free[0], s.pages[s.leaf[k]]), k, s.free[0])
  }

  lemma CowFacts(s: State, k: UPage)
    requires Sized(s) && k in s.leaf && |s.free| > 0 && s.free[0] != s.leaf[k] && s.free[0] !in s.shared
    requires s.ref[s.leaf[k]] > 0
    ensures var mem, pa := s.free[0], s.leaf[k]; var t := Free(CowSwitched(s, k), pa);
      && t.leaf == s.leaf[k := mem] && t.perm == s.perm[k := s.perm[k].(w := true, c := false)]
      && t.own == s.own && t.shm == s.shm && t.extra == s.extra && t.shared <= s.shared && t.tainted == s.tainted
  {
    var mem, pa := s.free[0], s.leaf[k];
    PutBack(s.extra, mem);
    PutBack(s.extra, pa);
    hide Sized, Fill;
  }

  lemma PutBack(m: multiset<Pa>, pa: Pa)
    ensures m + multiset{pa} - multiset{pa} == m
  {
  }

  /** Copying a page and repointing an entry to the copy. */
  lemma CowKeeps(s: State, k: UPage, e: Eager)
    requires Inv(s) && Refines(s, e) && k in s.leaf && |s.free| > 0
    ensures Sized(s)
    ensures Inv(CowSwitched(s, k)) && Refines(CowSwitched(s, k), e)
    ensures s.free[0] != s.leaf[k] && s.free[0] !in s.shared && s.ref[s.leaf[k]] > 0
  {
    hide Inv, Refines;
    KeysMatch(s);
    var mem, pa := s.free[0], s.leaf[k];
    AllocInv(s);
    MappedPage(s, k);
    AllocRefines(s, e);
    var t1 := Alloc(s);
    OverwriteInv(t1, mem, s.pages[pa]);
    OverwriteRefines(t1, mem, s.pages[pa], e);
    var t2 := Overwrite(t1, mem, s.pages[pa]);
    RepointInv(t2, k, mem);
    RepointRefines(t2, k, mem, e);
  }

  lemma WriteStored(s: State, k: UPage, off: nat, chunk: seq<nat>, e: Eager)
    requires Inv(s) && Refines(s, e) && k in s.leaf && (s.perm[k].w || s.ref[s.leaf[k]] == 1)
    requires off + |chunk| <= PGSIZE
    ensures Refines(Overwrite(s, s.leaf[k], Patched(s.pages[s.leaf[k]], off, chunk)),
                    Stored(e, k.space, k.vpn * PGSIZE + off, chunk))
  {
    hide Inv, Patched, Stored;
    var b := Patched(s.pages[s.leaf[k]], off, chunk);
    var t := Overwrite(s, s.leaf[k], b);
    WriteRefines(s, k, b, e);
    if Private(s, k) {
      assert View(s, k) == e(k);
    } else {
      SameEager(t, Set(e, k, b), Set(e, k, Patched(e(k), off, chunk)));
    }
    PatchedIsStored(t, e, k, off, chunk);
  }

  /** Fork has taken write permission away from the parent's entry. */
  function CowMarked(s: State, k: UPage): State
    requires k in s.leaf && k in s.perm
  {
    s.(perm := s.perm[k := CowPerm(s, k)])
  }

  lemma CowMarkedSame(s: State, k: UPage)
    requires k in s.leaf && k in s.perm
    ensures CowPerm(s, k) == s.perm[k] ==> CowMarked(s, k) == s
  {
  }

  lemma CowMarkedKeeps(s: State, k: UPage, e: Eager)
    requires Inv(s) && Refines(s, e) && k in s.leaf && k in s.perm
    ensures Inv(CowMarked(s, k)) && Refines(CowMarked(s, k), e)
  {
  }

  /** The child's entry for a page whose parent entry has been marked. */
  lemma ShareStep(s: State, t: State, k: UPage, child: UPage, e: Eager)
    requires k in s.leaf && k in s.perm && child !in s.leaf
    requires Inv(CowMarked(s, k)) && Quiet(CowMarked(s, k), t) && Inv(t) && Refines(CowMarked(s, k), e)
    ensures Refines(t, e) && Sized(t)
    ensures t.leaf == s.leaf && t.shm == s.shm && t.perm == s.perm[k := CowPerm(s, k)] && t.tainted == s.tainted
    ensures CowPerm(t, k) == CowPerm(s, k) && t.perm[k := CowPerm(t, k)] == t.perm
    ensures Inv(ShareLeaf(t, k, child)) && Refines(ShareLeaf(t, k, child), Set(e, child, e(k)))
  {
    hide Inv, Refines;
    QuietRefines(CowMarked(s, k), t, e);
    KeysMatch(t);
    ShareLeafInv(t, k, child);
    ShareLeafRefines(t, k, child, e);
  }

  lemma DroppedNone(s: State, e: Eager, space: nat, lo: nat)
    requires Refines(s, e)
    ensures Refines(s, Dropped(e, space, lo, lo))
  {
  }

  lemma DroppedStep(s: State, e: Eager, space: nat, lo: nat, a: nat)
    requires lo <= a && Refines(s, Set(Dropped(e, space, lo, a), UPage(space, a), ZeroPage()))
    ensures Refines(s, Dropped(e, space, lo, a + 1))
  {
  }

  lemma DroppedHole(s: State, e: Eager, space: nat, lo: nat, a: nat)
    requires lo <= a && Refines(s, Dropped(e, space, lo, a)) && UPage(space, a) !in s.leaf
    ensures Refines(s, Dropped(e, space, lo, a + 1)) && UPage(space, a) !in s.perm
  {
  }

  /** A child given up again leaves the eager machine as it was. */
  lemma CopiedBack(s: State, t: State, e: Eager, parent: nat, child: nat, v: nat)
    requires Refines(s, e) && Refines(t, Dropped(Copied(e, parent, child, v), child, 0, v))
    requires forall k :: k in s.leaf ==> k.space != child
    ensures Refines(t, e)
  {
  }

  /** Dropping pages that were not mapped to begin with. */
  lemma DroppedBack(s: State, t: State, e: Eager, space: nat, lo: nat, hi: nat)
    requires Refines(s, e) && Refines(t, Dropped(e, space, lo, hi))
    requires forall k :: k in s.leaf ==> !InRange(k, space, lo, hi)
    ensures Refines(t, e)
  {
  }

  lemma RefinesTaint(s: State, e: Eager, child: nat)
    requires Refines(s, e) && forall k :: k in s.leaf ==> k.space != child
    ensures forall k :: k in s.tainted ==> k.space != child
  {
  }

  lemma MarkedTaint(s: State, k: UPage, mid: State)
    requires k in s.leaf && k in s.perm && Quiet(CowMarked(s, k), mid)
    ensures mid.tainted == s.tainted
  {
  }

  lemma RefinesSized(s: State, e: Eager)
    requires Refines(s, e)
    ensures Sized(s)
  {
  }

  lemma TaintMapped(s: State)
    requires Inv(s)
    ensures s.tainted <= s.leaf.Keys && forall k :: k !in s.leaf ==> k !in s.tainted && s.tainted - {k} == s.tainted
  {
  }

  lemma KeysMatch(s: State)
    requires Inv(s)
    ensures Sized(s) && s.leaf.Keys == s.perm.Keys
  {
  }

  /** kalloc followed by memset: a zeroed page that only the caller holds. */
  lemma FreshPage(s: State, e: Eager)
    requires Inv(s) && |s.free| > 0 && Refines(s, e)
    ensures var pa := s.free[0]; var t := Overwrite(Alloc(s), pa, Fill(0));
      Inv(t) && Refines(t, e) && t.ref[pa] == 1 && pa in t.extra && t.pages[pa] == ZeroPage()
  {
    AllocInv(s);
    AllocRefines(s, e);
    OverwriteInv(Alloc(s), s.free[0], Fill(0));
    OverwriteRefines(Alloc(s), s.free[0], Fill(0), e);
  }

  lemma QuietKeeps(s: State, t: State, pa: Pa, e: Eager)
    requires Inv(s) && Quiet(s, t) && Refines(s, e) && pa in s.extra
    ensures s.ref[pa] > 0 && Refines(t, e) && t.ref[pa] == s.ref[pa] && t.pages[pa] == s.pages[pa]
    ensures t.leaf == s.leaf && t.perm == s.perm && t.shared == s.shared && t.extra == s.extra && Grows(s.own, t.own)
  {
    QuietRefines(s, t, e);
    CountAt(s, pa);
  }

  lemma QuietKept(s: State, t: State, e: Eager)
    requires Inv(s) && Quiet(s, t) && Refines(s, e)
    ensures Refines(t, e) && OnlyOwn(s, t) && Grows(s.own, t.own)
  {
    QuietRefines(s, t, e);
  }

  /** The kernel's record of a page goes, and with it the page's only
      reference. */
  lemma OwnReleased(s: State, o: Owner, e: Eager)
    requires Inv(s) && Refines(s, e) && o in s.own
    ensures Sized(s) && s.ref[s.own[o]] > 0
    ensures var t := Free(s, s.own[o]).(extra := s.extra, own := s.own - {o}); Inv(t) && Refines(t, e)
  {
    var pa := s.own[o];
    OwnPage(s, o);
    TakeOwnInv(s, o);
    OwnRefines(s, s.own - {o}, s.extra + multiset{pa}, e);
    var t := TakeOwn(s, o);
    FreeInv(t, pa);
    FreeRefines(t, pa, e);
    hide Inv, Refines;
    PutBack(s.extra, pa);
    assert Free(s, pa).(extra := s.extra, own := s.own - {o}) == Free(t, pa);
  }

  lemma ShmIndex(s: State)
    requires Inv(s)
    ensures forall i :: i in s.shm ==> i < SHM_MAX
  {
  }

  lemma IncrefKeeps(s: State, i: nat, e: Eager)
    requires Inv(s) && Refines(s, e) && i in s.shm
    ensures Sized(s) && s.shm[i] in s.shared
    ensures Inv(Incref(s, s.shm[i])) && Refines(Incref(s, s.shm[i]), e)
  {
    IncrefInv(s, i);
    var t := Incref(s, s.shm[i]);
    ShmRefines(s, s.shm, t.ref, t.extra, s.shared, e);
  }

  /** The table's reference goes. */
  lemma ShmReleased(s: State, i: nat, e: Eager)
    requires Inv(s) && Refines(s, e) && i in s.shm
    ensures Sized(s) && s.ref[s.shm[i]] > 0
    ensures var t := Free(s, s.shm[i]).(extra := s.extra, shm := s.shm - {i}); Inv(t) && Refines(t, e)
  {
    var pa := s.shm[i];
    TakeShmInv(s, i);
    ShmRefines(s, s.shm - {i}, s.ref, s.extra + multiset{pa}, s.shared, e);
    var t := TakeShm(s, i);
    FreeInv(t, pa);
    FreeRefines(t, pa, e);
    hide Inv, Refines;
    PutBack(s.extra, pa);
    assert Free(s, pa).(extra := s.extra, shm := s.shm - {i}) == Free(t, pa);
  }

  /** A fresh page has entered shm_table and is about to be mapped. */
  function ShmNew(s: State, i: nat): State
    requires Sized(s) && |s.free| > 0
  {
    var pa := s.free[0];
    var t := PutShm(Overwrite(Alloc(s), pa, ZeroPage()), i, pa);
    Incref(t, pa)
  }

  lemma ShmCreated(s: State, i: nat, e: Eager)
    requires Inv(s) && Refines(s, e) && |s.free| > 0 && i !in s.shm && i < SHM_MAX
    ensures Sized(s) && Inv(ShmNew(s, i)) && Refines(ShmNew(s, i), e)
  {
    hide Inv, Refines;
    KeysMatch(s);
    var pa := s.free[0];
    FreshPage(s, e);
    var t := Overwrite(Alloc(s), pa, ZeroPage());
    AllocInv(s);
    PutShmInv(t, i, pa);
    ShmRefines(t, t.shm[i := pa], t.ref, t.extra - multiset{pa}, t.shared + {pa}, e);
    var u := PutShm(t, i, pa);
    IncrefInv(u, i);
    ShmRefines(u, u.shm, Incref(u, pa).ref, Incref(u, pa).extra, u.shared, e);
  }

  lemma QuietSame(s: State, t: State)
    requires Quiet(s, t)
    ensures SameBut(s, t) && t.leaf == s.leaf && t.perm == s.perm
    ensures t.extra == s.extra && t.shared == s.shared && t.tainted == s.tainted && Sized(t)
  {
  }

  lemma QuietSelf(s: State)
    requires Inv(s)
    ensures Quiet(s, s)
  {
  }

  lemma QuietTrans(s: State, t: State, u: State)
    requires Inv(s) && Quiet(s, t) && Quiet(t, u)
    ensures Quiet(s, u)
  {
  }
}
