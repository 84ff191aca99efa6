/** walk, mappages, uvmunmap, freewalk and the page-table half of
    proc_pagetable and proc_freepagetable, on a three-level table in physical
    pages, proved against the flat map the table stands for. */
module PageTable {
  import opened Common
  import opened PageTree
  import opened PagePrune

  function PX(level: nat, n: nat): Idx {
    if level == 2 then n / ENTRIES / ENTRIES % ENTRIES
    else if level == 1 then n / ENTRIES % ENTRIES
    else n % ENTRIES
  }

  /** The place walk has reached when it is about to read level `level`. */
  function PlaceAt(level: nat, n: nat): Place
    requires n < VPNS
  {
    if level >= 2 then Root else if level == 1 then Mid(n / ENTRIES / ENTRIES) else LastOf(n)
  }

  ghost predicate SameFlat(s: State, t: State)
    requires Sized(s) && Sized(t)
  {
    forall m: nat :: m < VPNS ==> Flat(t, m) == Flat(s, m)
  }

  /** No table was lost or moved. */
  ghost predicate TablesKept(s: State, t: State)
    requires Sized(s) && Sized(t)
  {
    forall q: Place :: Tbl(s, q) != 0 ==> Tbl(t, q) == Tbl(s, q)
  }

  /** The free pages and the tables together are the same pages, each once. */
  ghost predicate SamePool(s: State, t: State) {
    && |t.free| + |t.owner| == |s.free| + |s.owner|
    && forall b :: b in t.free || b in t.owner <==> b in s.free || b in s.owner
  }

  /** Only tables were added: the translation is the same, and each page left
      the free list to become one table. */
  ghost predicate Extends(s: State, t: State) {
    && Inv(s) && Inv(t) && SameFlat(s, t) && TablesKept(s, t)
    && t.root == s.root && t.dropped == s.dropped && SamePool(s, t)
  }

  lemma ExtendsOnce(s: State, t: State, p: Place)
    requires Extends(s, t) && CanAdd(t, p)
    ensures Extends(s, Added(t, p)) && Tbl(Added(t, p), p) == t.free[0] && t.free[0] != 0
    ensures forall q: Place :: q != p ==> Tbl(Added(t, p), q) == Tbl(t, q)
  {
    hide Owned, Shaped, Tbl, Flat, Frees;
    AddedKeeps(t, p);
    FirstFree(t.free, t.owner, p);
    AddedFrame(t, p);
    assert t.free == [t.free[0]] + t.free[1..];
  }

  lemma AddedFrame(s: State, p: Place)
    requires Sized(s) && CanAdd(s, p)
    ensures var t := Added(s, p);
      t.root == s.root && t.dropped == s.dropped && t.free == s.free[1..] && t.owner == s.owner[s.free[0] := p]
  {
  }

  class PageTable {
    var s: State

    /** The last-level table for page n: 0 if it is missing and either alloc is
        false or a page ran out. With alloc the missing tables are added, and
        no translation changes. */
    method Walk(n: nat, alloc: bool) returns (t: Pa, panicked: bool)
      requires Inv(s)
      modifies this
      ensures panicked <==> n >= MAXVPN
      ensures Extends(old(s), s)
      ensures panicked || !alloc ==> s == old(s)
      ensures !panicked ==> t == Tbl(s, LastOf(n))
      ensures !panicked && alloc && t == 0 ==> s.free == []
    {
      hide Owned, Shaped, Frees, Flat;
      t := 0;
      if n >= MAXVPN {
        return 0, true;
      }
      panicked := false;
      var pt := s.root;
      var level := 2;
      while level > 0
        invariant 0 <= level <= 2 && Extends(old(s), s) && (!alloc ==> s == old(s))
        invariant pt != 0 && pt == Tbl(s, PlaceAt(level, n))
      {
        var e := s.tab[pt][PX(level, n)];
        if e.v {
          PointerNotNull(s, PlaceAt(level, n), PX(level, n));
          pt := e.pa;
        } else {
          if !alloc || s.free == [] {
            return 0, false;
          }
          ghost var s1 := s;
          ExtendsOnce(old(s), s, PlaceAt(level - 1, n));
          var b := s.free[0];
          s := s.(tab := s.tab[b := ZeroTable()], free := s.free[1..]);
          s := s.(tab := s.tab[pt := s.tab[pt][PX(level, n) := Pointer(b)]],
                  owner := s.owner[b := PlaceAt(level - 1, n)]);
          pt := b;
        }
        level := level - 1;
      }
      t := pt;
    }

    /** One pass of mappages' loop, for the page after the done ones that have
        been mapped since s0. */
    method MapOne(n: nat, done: nat, pa: nat, perm: Pte, ghost s0: State) returns (r: MapResult)
      requires TreeKept(s0, s) && MapsTo(s0, s, n, done, pa, perm) && perm.Leaf() && pa + done < NPAGES
      modifies this
      ensures TreeKept(s0, s) && s.dropped == old(s).dropped && r != NoSize
      ensures MapsTo(s0, s, n, if r == Mapped then done + 1 else done, pa, perm)
      ensures r == OutOfRange <==> n + done >= MAXVPN
      ensures r == Remap ==> Flat(s0, n + done).v
      ensures r == NoMemory ==> s.free == []
    {
      hide Owned, Shaped, Frees, Flat, Tbl, WithLeaf, MapsTo, TablesKept, SameFlat;
      var t, panicked := Walk(n + done, true);
      KeptTrans(s0, old(s), s);
      MapsWalk(s0, old(s), s, n, done, pa, perm);
      if panicked {
        return OutOfRange;
      }
      if t == 0 {
        return NoMemory;
      }
      LeafAt(s, n + done);
      var k := (n + done) % ENTRIES;
      if s.tab[t][k].v {
        MapsRest(s0, s, n, done, pa, perm);
        return Remap;
      }
      var e := perm.(v := true, pa := pa + done);
      WithLeafKeeps(s, n + done, e);
      LeafIs(s, n + done, e);
      MapsLeaf(s0, s, WithLeaf(s, n + done, e), n, done, pa, perm, e);
      KeptLeaf(s0, s, WithLeaf(s, n + done, e));
      s := s.(tab := s.tab[t := s.tab[t][k := e]]);
      return Mapped;
    }

    /** Maps npages pages from n on to the physical pages from pa on. The pages
        before the first one that fails stay mapped. */
    method Mappages(n: nat, npages: nat, pa: Pa, perm: Pte) returns (r: MapResult, done: nat)
      requires Inv(s) && perm.Leaf() && pa + npages <= NPAGES
      modifies this
      ensures TreeKept(old(s), s) && s.dropped == old(s).dropped
      ensures done <= npages && MapsTo(old(s), s, n, done, pa, perm)
      ensures r == Mapped <==> 0 < npages == done
      ensures r == NoSize <==> npages == 0
      ensures r == OutOfRange <==> done < npages && n + done >= MAXVPN
      ensures r == Remap ==> n + done < MAXVPN && Flat(old(s), n + done).v
      ensures r == NoMemory ==> s.free == [] && n + done < MAXVPN
    {
      hide Owned, Shaped, Frees, Flat, Tbl, MapsTo, TreeKept;
      MapsNone(s, n, pa, perm);
      KeptSelf(s);
      done := 0;
      if npages == 0 {
        return NoSize, 0;
      }
      while true
        invariant done < npages && TreeKept(old(s), s) && s.dropped == old(s).dropped
        invariant MapsTo(old(s), s, n, done, pa, perm)
        decreases npages - done
      {
        r := MapOne(n, done, pa, perm, old(s));
        if r != Mapped {
          return;
        }
        done := done + 1;
        if done == npages {
          return;
        }
      }
    }

    /** Removes the mappings of npages pages from n on; absent ones are skipped.
        With doFree each mapped page is dropped once, in order. */
    method Uvmunmap(n: nat, npages: nat, doFree: bool) returns (panicked: bool)
      requires Inv(s)
      modifies this
      ensures panicked <==> npages > 0 && n + npages > MAXVPN
      ensures !panicked ==> TreeKept(old(s), s) && s.free == old(s).free && s.owner == old(s).owner
      ensures !panicked ==> Unmaps(old(s), s, n, npages)
      ensures !panicked && npages > 0 ==>
                s.dropped == old(s).dropped + if doFree then LeafPages(old(s), n, npages) else []
    {
      hide Owned, Shaped, Frees, Flat, Tbl, WithLeaf, TablesKept, SameFlat, Unmaps, LeafPages;
      panicked := false;
      var k := 0;
      KeptSelf(s);
      UnmapsNone(s, n);
      while k < npages
        invariant k <= npages && (k > 0 ==> n + k <= MAXVPN) && TreeKept(old(s), s)
        invariant s.free == old(s).free && s.owner == old(s).owner && Unmaps(old(s), s, n, k)
        invariant k > 0 ==> s.dropped == old(s).dropped + if doFree then LeafPages(old(s), n, k) else []
        invariant k == 0 ==> s == old(s)
      {
        var t;
        t, panicked := Walk(n + k, false);
        if panicked {
          return;
        }
        DropPage(n, k, t, doFree, old(s));
        k := k + 1;
      }
    }

    /** One turn of uvmunmap's loop, at page n + k with last-level table t. */
    method DropPage(n: nat, k: nat, t: Pa, doFree: bool, ghost s0: State)
      requires TreeKept(s0, s) && Unmaps(s0, s, n, k) && n + k < MAXVPN && t == Tbl(s, LastOf(n + k))
      requires s.free == s0.free && s.owner == s0.owner
      requires k > 0 ==> s.dropped == s0.dropped + if doFree then LeafPages(s0, n, k) else []
      requires k == 0 ==> s == s0
      modifies this
      ensures TreeKept(s0, s) && Unmaps(s0, s, n, k + 1) && s.free == s0.free && s.owner == s0.owner
      ensures s.dropped == s0.dropped + if doFree then LeafPages(s0, n, k + 1) else []
    {
      hide Owned, Shaped, Frees, Flat, Tbl, WithLeaf, TablesKept, SameFlat, Unmaps;
      if t == 0 {
        NoLeafTable(s, n + k);
        UnmapsSkip(s0, s, n, k);
        return;
      }
      LeafAt(s, n + k);
      var i := (n + k) % ENTRIES;
      if !s.tab[t][i].v {
        UnmapsSkip(s0, s, n, k);
        return;
      }
      WithLeafKeeps(s, n + k, ZERO);
      LeafIs(s, n + k, ZERO);
      ghost var s1 := WithLeaf(s, n + k, ZERO);
      UnmapsStep(s0, s, s1, n, k);
      KeptLeaf(s0, s, s1);
      if doFree {
        s := s.(dropped := s.dropped + [s.tab[t][i].pa]);
      }
      s := s.(tab := s.tab[t := s.tab[t][i := ZERO]]);
      InvReads(s1, s);
      UnmapsReads(s0, s1, s, n, k + 1);
      KeptReads(s0, s1, s);
    }

    /** Frees the tables at and below p, each once. Panics exactly when some
        page is still mapped there. */
    method Freewalk(t: Pa, ghost p: Place) returns (panicked: bool)
      requires Inv(s) && t == Tbl(s, p) && t != 0
      modifies this
      ensures panicked <==> LeafUnder(old(s), p)
      ensures !panicked ==> Removed(old(s), s, p)
      decreases if p.Root? then 2 else if p.Mid? then 1 else 0
    {
      hide Owned, Shaped, Frees, Flat, Tbl, Released, Untouched, In, LeafUnder, NoneMapped, Pruned, Removed;
      panicked := false;
      ghost var s0 := s;
      PrunedNone(s, p);
      NoneAtFirst(s, p);
      var i := 0;
      while i < ENTRIES
        invariant 0 <= i <= ENTRIES && Inv(s) && Pruned(s0, s, p, i) && NoneMapped(s0, p, i) && t == Tbl(s, p)
      {
        EntryBelow(s, p, i);
        PrunedEntry(s0, s, p, i);
        var e := s.tab[t][i];
        if e.v && !e.Leaf() {
          ghost var s1 := s;
          LeafSame(s0, s, p, i);
          panicked := Freewalk(e.pa, Below(p, i));
          if panicked {
            return;
          }
          RemovedSized(s1, s, Below(p, i));
          PruneChild(s0, s1, s, p, i);
          s := s.(tab := s.tab[t := s.tab[t][i := ZERO]]);
          NoneStep(s0, p, i);
        } else if e.v {
          LeafFound(s0, p, i);
          return true;
        } else {
          PruneSkip(s0, s, p, i);
          if !p.Last? {
            NoTableNoLeaf(s0, Below(p, i));
          }
          NoneStep(s0, p, i);
        }
        PrunedAt(s0, s, p, i + 1);
        i := i + 1;
      }
      NoneDone(s0, p);
      var junk: Table := *;
      PruneDone(s0, s, p, junk);
      s := s.(tab := s.tab[t := junk], free := [t] + s.free, owner := s.owner - {t});
    }

    /** uvmfree: drops the pages below npages and frees every table. Panics
        exactly when the range is too large or a page above it is mapped. */
    method Uvmfree(npages: nat) returns (panicked: bool)
      requires Inv(s)
      modifies this
      ensures panicked <==> npages > MAXVPN || MappedFrom(old(s), npages)
      ensures !panicked ==> Vacant(s) && Returned(old(s), s)
      ensures !panicked ==> s.dropped == old(s).dropped + LeafPages(old(s), 0, npages)
    {
      hide Owned, Shaped, Frees, Flat, Tbl, Released, Untouched, In, LeafUnder, Unmaps;
      panicked := false;
      UnmapsNone(s, 0);
      if npages > 0 {
        panicked := Uvmunmap(0, npages, true);
        if panicked {
          return;
        }
      }
      ghost var s1 := s;
      UnmapsAll(old(s), s, npages);
      RootTable(s);
      panicked := Freewalk(s.root, Root);
      if !panicked {
        AllReturned(s1, s);
        s := s.(root := 0);
      }
    }

    /** proc_freepagetable: the trampoline and trapframe mappings go without
        their pages, then everything below the process size. */
    method FreePagetable(npages: nat) returns (panicked: bool)
      requires Inv(s) && npages <= TRAPFRAME
      modifies this
      ensures panicked <==>
                exists n: nat :: npages <= n < VPNS && n != TRAMPOLINE && n != TRAPFRAME && Flat(old(s), n).v
      ensures !panicked ==> Vacant(s) && Returned(old(s), s)
      ensures !panicked ==> s.dropped == old(s).dropped + LeafPages(old(s), 0, npages)
    {
      hide Owned, Shaped, Frees, Flat, Tbl, LeafPages, Vacant, Returned, TablesKept, Unmaps;
      panicked := Uvmunmap(TRAMPOLINE, 1, false);
      ghost var s1 := s;
      panicked := Uvmunmap(TRAPFRAME, 1, false);
      BothUnmapped(old(s), s1, s, npages);
      ghost var s2 := s;
      panicked := Uvmfree(npages);
      if !panicked {
        ReturnedSame(old(s), s2, s);
      }
    }

    /** proc_pagetable: a table that maps the trampoline and the trapframe and
        nothing else, or, when pages run out, none, with every page back. */
    method ProcPagetable(tramp: Pa, frame: Pa) returns (ok: bool)
      requires Vacant(s)
      modifies this
      ensures s.dropped == old(s).dropped && SamePool(old(s), s)
      ensures !ok ==> Vacant(s)
      ensures ok ==> Inv(s)
      ensures ok ==> forall n: nat :: n < VPNS ==>
                Flat(s, n) == if n == TRAMPOLINE then ZERO.(v := true, r := true, x := true, pa := tramp)
                              else if n == TRAPFRAME then ZERO.(v := true, r := true, w := true, pa := frame)
                              else ZERO
    {
      hide Owned, Shaped, Frees, Flat, Tbl, Returned, TablesKept, MapsTo, Unmaps;
      ghost var s0 := s;
      if s.free == [] {
        return false;
      }
      FreshTable(s);
      s := s.(tab := s.tab[s.free[0] := ZeroTable()], root := s.free[0], free := s.free[1..],
              owner := map[s.free[0] := Root]);
      ghost var s1 := s;
      var r, done := Mappages(TRAMPOLINE, 1, tramp, ZERO.(r := true, x := true));
      ghost var s2 := s;
      if r != Mapped {
        NothingMapped(s1, s2, tramp, ZERO.(r := true, x := true));
        var panicked := Uvmfree(0);
        BackToStart(s0, s1, s2, s);
        return false;
      }
      r, done := Mappages(TRAPFRAME, 1, frame, ZERO.(r := true, w := true));
      ghost var s3 := s;
      if r != Mapped {
        var panicked := Uvmunmap(TRAMPOLINE, 1, false);
        OneUnmapped(s1, s2, s3, s, tramp, frame);
        ghost var s4 := s;
        panicked := Uvmfree(0);
        BackToStart(s0, s1, s4, s);
        return false;
      }
      TwoMapped(s1, s2, s, tramp, frame);
      return true;
    }
  }

  /** The valid leaf pages among k page numbers from n on, in order. */
  function LeafPages(s: State, n: nat, k: nat): seq<Pa>
    requires Sized(s) && n + k <= VPNS
  {
    if k == 0 then []
    else LeafPages(s, n, k - 1) + if Flat(s, n + k - 1).v then [Flat(s, n + k - 1).pa] else []
  }

  /** Exactly the pages [n, n + k) lost their mapping. */
  ghost predicate Unmaps(s0: State, s: State, n: nat, k: nat)
    requires Sized(s0) && Sized(s)
  {
    forall m: nat :: m < VPNS ==>
      Flat(s, m) == if n <= m < n + k && Flat(s0, m).v then ZERO else Flat(s0, m)
  }

  lemma UnmapsStep(s0: State, s: State, t: State, n: nat, k: nat)
    requires Sized(s0) && Sized(s) && Sized(t) && n + k < VPNS && Unmaps(s0, s, n, k)
    requires forall m: nat :: m < VPNS ==> Flat(t, m) == if m == n + k then ZERO else Flat(s, m)
    requires Flat(s, n + k).v
    ensures Unmaps(s0, t, n, k + 1) && Flat(s0, n + k) == Flat(s, n + k)
  {
    hide Flat;
  }

  lemma UnmapsSkip(s0: State, s: State, n: nat, k: nat)
    requires Sized(s0) && Sized(s) && n + k < VPNS && Unmaps(s0, s, n, k) && !Flat(s, n + k).v
    ensures Unmaps(s0, s, n, k + 1) && !Flat(s0, n + k).v
  {
    hide Flat;
  }

  lemma NoLeafTable(s: State, n: nat)
    requires Sized(s) && n < VPNS && Tbl(s, LastOf(n)) == 0
    ensures !Flat(s, n).v
  {
  }

  lemma InvReads(s: State, t: State)
    requires Inv(s) && t == s.(dropped := t.dropped)
    ensures Inv(t) && TablesKept(s, t) && SameFlat(s, t) && forall q: Place :: Tbl(t, q) == Tbl(s, q)
  {
    assert forall q: Place :: Tbl(t, q) == Tbl(s, q);
    assert forall n: nat :: n < VPNS ==> Flat(t, n) == Flat(s, n);
  }

  lemma UnmapsNone(s: State, n: nat)
    requires Sized(s)
    ensures Unmaps(s, s, n, 0)
  {
  }

  lemma UnmapsReads(s0: State, s: State, t: State, n: nat, k: nat)
    requires Sized(s0) && Sized(s) && Sized(t) && Unmaps(s0, s, n, k) && SameFlat(s, t)
    ensures Unmaps(s0, t, n, k)
  {
  }

  lemma KeptReads(s0: State, s: State, t: State)
    requires TreeKept(s0, s) && t == s.(dropped := t.dropped) && Inv(t) && TablesKept(s, t)
    ensures TreeKept(s0, t)
  {
  }

  lemma NoneAtFirst(s: State, p: Place)
    requires Sized(s)
    ensures NoneMapped(s, p, 0)
  {
  }

  lemma PrunedAt(s0: State, s: State, p: Place, k: nat)
    requires Pruned(s0, s, p, k)
    ensures Inv(s) && Tbl(s, p) == Tbl(s0, p)
  {
    NotBefore(p, k);
  }

  /** Entry k, not yet handled, is the one freewalk started from. */
  lemma PrunedEntry(s0: State, s: State, p: Place, k: Idx)
    requires Pruned(s0, s, p, k) && Tbl(s0, p) != 0
    ensures Tbl(s, p) == Tbl(s0, p) && s.tab[Tbl(s0, p)][k] == s0.tab[Tbl(s0, p)][k]
    ensures !p.Last? ==> Tbl(s, Below(p, k)) == Tbl(s0, Below(p, k))
  {
  }

  lemma RemovedSized(s0: State, s: State, p: Place)
    requires Removed(s0, s, p)
    ensures Sized(s)
  {
  }

  lemma LeafFound(s: State, p: Place, k: Idx)
    requires Inv(s) && p.Last? && Tbl(s, p) != 0 && s.tab[Tbl(s, p)][k].v
    ensures LeafUnder(s, p)
  {
    var n := Number(p.i, p.j, k);
    assert Flat(s, n).v;
  }

  ghost predicate MappedFrom(s: State, n: nat)
    requires Sized(s)
  {
    exists m: nat :: n <= m < VPNS && Flat(s, m).v
  }

  /** No table at all. */
  ghost predicate Vacant(s: State) {
    Sized(s) && s.root == 0 && s.owner == map[] && Frees(s.free, s.owner)
  }

  /** Every table page is back on the free list, each once. */
  ghost predicate Returned(s0: State, s: State) {
    && |s.free| == |s0.free| + |s0.owner|
    && forall b :: b in s.free <==> b in s0.free || b in s0.owner
  }

  lemma UnmapsAll(s0: State, s: State, k: nat)
    requires Sized(s0) && Sized(s) && Unmaps(s0, s, 0, k)
    ensures LeafUnder(s, Root) <==> MappedFrom(s0, k)
  {
  }

  lemma AllReturned(s0: State, s: State)
    requires Removed(s0, s, Root)
    ensures s.owner == map[] && Returned(s0, s) && Frees(s.free, s.owner) && s.dropped == s0.dropped
  {
  }

  lemma ReturnedSame(s0: State, s1: State, s: State)
    requires Returned(s1, s) && s1.free == s0.free && s1.owner == s0.owner
    ensures Returned(s0, s)
  {
  }

  lemma BothUnmapped(s0: State, s1: State, s2: State, k: nat)
    requires Sized(s0) && Sized(s1) && Sized(s2) && k <= TRAPFRAME
    requires Unmaps(s0, s1, TRAMPOLINE, 1) && Unmaps(s1, s2, TRAPFRAME, 1)
    ensures MappedFrom(s2, k) <==>
              exists n: nat :: k <= n < VPNS && n != TRAMPOLINE && n != TRAPFRAME && Flat(s0, n).v
    ensures LeafPages(s2, 0, k) == LeafPages(s0, 0, k)
  {
  }

  /** A zeroed page is a table with no translations. */
  lemma FreshTable(s: State)
    requires Vacant(s) && s.free != []
    ensures var t := s.(tab := s.tab[s.free[0] := ZeroTable()], root := s.free[0], free := s.free[1..],
                        owner := map[s.free[0] := Root]);
      Inv(t) && SamePool(s, t) &&
      forall n: nat :: n < VPNS ==> Flat(t, n) == ZERO
  {
    FirstFree(s.free, s.owner, Root);
    var b := s.free[0];
    var t := s.(tab := s.tab[b := ZeroTable()], root := b, free := s.free[1..], owner := map[b := Root]);
    hide Frees;
    assert forall p: Place :: Tbl(t, p) == if p == Root then b else 0;
    hide Tbl;
    assert t.owner == s.owner[b := Root];
    assert s.free == [b] + t.free;
  }

  lemma RootTable(s: State)
    requires Sized(s)
    ensures Tbl(s, Root) == s.root
  {
  }

  lemma BackToStart(s0: State, s1: State, s2: State, s: State)
    requires SamePool(s0, s1) && SamePool(s1, s2) && Returned(s2, s) && Vacant(s)
    ensures SamePool(s0, s)
  {
  }

  lemma OneUnmapped(s1: State, s2: State, s3: State, s: State, tramp: Pa, frame: Pa)
    requires Sized(s1) && Sized(s2) && Sized(s3) && Sized(s)
    requires forall n: nat :: n < VPNS ==> Flat(s1, n) == ZERO
    requires MapsTo(s1, s2, TRAMPOLINE, 1, tramp, ZERO.(r := true, x := true))
    requires MapsTo(s2, s3, TRAPFRAME, 0, frame, ZERO.(r := true, w := true))
    requires Unmaps(s3, s, TRAMPOLINE, 1)
    ensures !MappedFrom(s, 0)
  {
  }

  lemma TwoMapped(s1: State, s2: State, s: State, tramp: Pa, frame: Pa)
    requires Sized(s1) && forall n: nat :: n < VPNS ==> Flat(s1, n) == ZERO
    requires MapsTo(s1, s2, TRAMPOLINE, 1, tramp, ZERO.(r := true, x := true))
    requires MapsTo(s2, s, TRAPFRAME, 1, frame, ZERO.(r := true, w := true))
    ensures forall n: nat :: n < VPNS ==>
              Flat(s, n) == if n == TRAMPOLINE then ZERO.(v := true, r := true, x := true, pa := tramp)
                            else if n == TRAPFRAME then ZERO.(v := true, r := true, w := true, pa := frame)
                            else ZERO
  {
  }

  lemma NothingMapped(s1: State, s2: State, tramp: Pa, perm: Pte)
    requires Sized(s1) && Sized(s2) && MapsTo(s1, s2, TRAMPOLINE, 0, tramp, perm)
    requires forall n: nat :: n < VPNS ==> Flat(s1, n) == ZERO
    ensures !MappedFrom(s2, 0)
  {
  }

  datatype MapResult = Mapped | NoMemory | NoSize | OutOfRange | Remap

  /** The tree is sound, kept its tables, and no page was lost. */
  ghost predicate TreeKept(s: State, t: State) {
    Inv(s) && Inv(t) && TablesKept(s, t) && t.root == s.root && SamePool(s, t)
  }

  lemma KeptSelf(s: State)
    requires Inv(s)
    ensures TreeKept(s, s)
  {
  }

  lemma KeptTrans(s0: State, s: State, t: State)
    requires TreeKept(s0, s) && Extends(s, t)
    ensures TreeKept(s0, t)
  {
  }

  lemma KeptLeaf(s0: State, s: State, t: State)
    requires TreeKept(s0, s) && Inv(t) && t == s.(tab := t.tab) && forall q: Place :: Tbl(t, q) == Tbl(s, q)
    ensures TreeKept(s0, t)
  {
  }

  /** The first `done` pages from n on are mapped, none was before, and nothing
      else changed. */
  ghost predicate MapsTo(s0: State, s: State, n: nat, done: nat, pa: nat, perm: Pte) {
    && Sized(s0) && Sized(s) && pa + done <= NPAGES && (done > 0 ==> n + done <= VPNS)
    && (forall m: nat :: m < VPNS ==>
          Flat(s, m) == if n <= m < n + done then perm.(v := true, pa := pa + (m - n)) else Flat(s0, m))
    && forall m: nat :: n <= m < n + done ==> !Flat(s0, m).v
  }

  lemma MapsNone(s: State, n: nat, pa: Pa, perm: Pte)
    requires Sized(s)
    ensures MapsTo(s, s, n, 0, pa, perm)
  {
  }

  lemma MapsRest(s0: State, s: State, n: nat, done: nat, pa: nat, perm: Pte)
    requires MapsTo(s0, s, n, done, pa, perm) && n + done < VPNS
    ensures Flat(s, n + done) == Flat(s0, n + done)
  {
  }

  lemma MapsWalk(s0: State, s: State, t: State, n: nat, done: nat, pa: nat, perm: Pte)
    requires MapsTo(s0, s, n, done, pa, perm) && Sized(t) && SameFlat(s, t)
    ensures MapsTo(s0, t, n, done, pa, perm)
  {
  }

  lemma MapsLeaf(s0: State, s: State, t: State, n: nat, done: nat, pa: nat, perm: Pte, e: Pte)
    requires MapsTo(s0, s, n, done, pa, perm) && n + done < VPNS && pa + done < NPAGES && !Flat(s, n + done).v
    requires e == perm.(v := true, pa := pa + done) && Sized(t)
    requires forall m: nat :: m < VPNS ==> Flat(t, m) == if m == n + done then e else Flat(s, m)
    ensures MapsTo(s0, t, n, done + 1, pa, perm)
  {
    hide Flat;
  }

  lemma LeafAt(s: State, n: nat)
    requires Sized(s) && n < VPNS && Tbl(s, LastOf(n)) != 0
    ensures s.tab[Tbl(s, LastOf(n))][n % ENTRIES] == Flat(s, n)
  {
  }

  lemma LeafIs(s: State, n: nat, e: Pte)
    requires Sized(s) && n < VPNS
    ensures WithLeaf(s, n, e) ==
            s.(tab := s.tab[Tbl(s, LastOf(n)) := s.tab[Tbl(s, LastOf(n))][n % ENTRIES := e]])
  {
  }

  lemma PointerNotNull(s: State, p: Place, i: Idx)
    requires Inv(s) && Tbl(s, p) != 0 && !p.Last? && s.tab[Tbl(s, p)][i].v
    ensures s.tab[Tbl(s, p)][i].pa != 0
  {
  }
}
