/** Taking a block off the free list, whole or from its tail, as malloc does. */
module Carving {
  import opened FreeList

  /** p, the successor of prev, is a free block of at least n units. */
  ghost predicate CanCarve(s: Heap, prev: nat, p: nat, n: nat) {
    && Inv(s) && s.ready && prev in s.free && prev in s.mem && s.mem[prev].ptr == p && p in s.free
    && n > 0 && s.free[p] >= n
  }

  /** The whole block p is handed out. */
  function Unlinked(s: Heap, prev: nat, p: nat): Heap
    requires prev in s.mem && p in s.mem && p in s.free
  {
    s.(mem := s.mem[prev := Header(s.mem[p].ptr, s.mem[prev].size)], free := s.free - {p},
       alloc := s.alloc[p := s.free[p]], freep := prev)
  }

  /** The last n units of block p are handed out. */
  function Split(s: Heap, prev: nat, p: nat, n: nat): Heap
    requires p in s.mem && p in s.free && s.free[p] > n
  {
    var q := p + (s.free[p] - n);
    s.(mem := s.mem[p := Header(s.mem[p].ptr, s.free[p] - n)][q := Header(if q in s.mem then s.mem[q].ptr else 0, n)],
       free := s.free[p := s.free[p] - n], alloc := s.alloc[q := n], freep := prev)
  }

  /** What the carving needs of the ring. */
  lemma CarveRing(s: Heap, prev: nat, p: nat, n: nat)
    requires CanCarve(s, prev, p, n)
    ensures p in s.mem && p != BASE && s.mem[p].size == s.free[p] && prev < p && p !in s.alloc
    ensures Disjoint(s.free, s.alloc)
  {
  }

  lemma UnlinkedInv(s: Heap, prev: nat, p: nat)
    requires p in s.free && CanCarve(s, prev, p, s.free[p])
    ensures p in s.mem && Inv(Unlinked(s, prev, p))
  {
    hide Shape, Separated, Ring, Covers, Below, Allocated, Within, Disjoint;
    CarveRing(s, prev, p, s.free[p]);
    UnlinkedRing(s, prev, p);
    UnlinkedAlloc(s, prev, p);
    BelowMoved(s.free, s.alloc, p, s.brk);
    CoversTaken(s, p);
  }

  lemma UnlinkedRing(s: Heap, prev: nat, p: nat)
    requires p in s.free && CanCarve(s, prev, p, s.free[p]) && p in s.mem && p != BASE && prev < p
    ensures var t := Unlinked(s, prev, p);
      Shape(t.free) && Separated(t.free, 1) && Ring(t.mem, t.free) && t.freep in t.free
  {
    hide IsNext, Covers, Below, Allocated;
    var t := Unlinked(s, prev, p);
    assert t.free.Keys == s.free.Keys - {p};
    assert IsNext(s.free.Keys, prev, p) && IsNext(s.free.Keys, p, s.mem[p].ptr);
    NextGone(s.free.Keys, prev, p, s.mem[p].ptr);
    forall x | x in t.free && x != prev ensures IsNext(t.free.Keys, x, s.mem[x].ptr) {
      assert IsNext(s.free.Keys, x, s.mem[x].ptr);
      NextStays(s.free.Keys, prev, p, x, s.mem[x].ptr);
    }
  }

  lemma UnlinkedAlloc(s: Heap, prev: nat, p: nat)
    requires p in s.free && CanCarve(s, prev, p, s.free[p]) && p in s.mem && p != BASE && prev < p && p !in s.alloc
    requires s.mem[p].size == s.free[p]
    ensures var t := Unlinked(s, prev, p); Allocated(t.mem, t.free, t.alloc)
  {
    hide Ring, Covers, Below, IsNext;
    var t := Unlinked(s, prev, p);
    forall a | a in s.alloc ensures Apart(p, s.free[p], a, s.alloc[a]) && a != prev && a != p {
      assert Apart(a, s.alloc[a], p, s.free[p]) && Apart(a, s.alloc[a], prev, s.free[prev]);
    }
    AllocatedAdd(s, t.mem, t.free, p, s.free[p]);
  }

  /** One more allocated block. */
  lemma AllocatedAdd(s: Heap, mem: map<nat, Header>, free: Blocks, q: nat, n: nat)
    requires Allocated(s.mem, s.free, s.alloc) && q != BASE && n > 0 && q in mem && mem[q].size == n && q !in s.alloc
    requires forall a, x :: a in s.alloc && x in free ==> Apart(a, s.alloc[a], x, free[x])
    requires forall x :: x in free ==> Apart(q, n, x, free[x])
    requires forall a :: a in s.alloc ==> Apart(q, n, a, s.alloc[a]) && a in mem && mem[a].size == s.mem[a].size
    ensures Allocated(mem, free, s.alloc[q := n])
  {
  }

  lemma BelowMoved(free: Blocks, alloc: Blocks, p: nat, brk: nat)
    requires Below(free, brk) && Below(alloc, brk) && p in free
    ensures Below(free - {p}, brk) && Below(alloc[p := free[p]], brk)
  {
  }

  lemma CoversTaken(s: Heap, p: nat)
    requires Covers(s.free, s.alloc, s.got) && p in s.free && p !in s.alloc
    ensures Covers(s.free - {p}, s.alloc[p := s.free[p]], s.got)
  {
    forall u: nat ensures u in s.got <==> Within(s.free - {p}, u) || Within(s.alloc[p := s.free[p]], u) {
      WithinLess(s.free, p, u);
      PutWithin(s.alloc, p, s.free[p], u);
      assert u in s.got <==> Within(s.free, u) || Within(s.alloc, u);
    }
    hide Within;
  }

  lemma SplitInv(s: Heap, prev: nat, p: nat, n: nat)
    requires CanCarve(s, prev, p, n) && s.free[p] > n
    ensures p in s.mem && Inv(Split(s, prev, p, n))
  {
    hide Shape, Separated, Ring, Covers, Below, Allocated, Within, Disjoint;
    CarveRing(s, prev, p, n);
    SplitRing(s, prev, p, n);
    SplitAlloc(s, prev, p, n);
    SplitCovers(s, prev, p, n);
  }

  lemma SplitRing(s: Heap, prev: nat, p: nat, n: nat)
    requires CanCarve(s, prev, p, n) && s.free[p] > n && p in s.mem && p != BASE
    ensures var t := Split(s, prev, p, n);
      Shape(t.free) && Separated(t.free, 1) && Ring(t.mem, t.free) && t.freep in t.free &&
      Below(t.free, s.brk) && Below(t.alloc, s.brk)
  {
    hide IsNext, Covers, Allocated;
    var t := Split(s, prev, p, n);
    assert t.free.Keys == s.free.Keys;
    var q := p + (s.free[p] - n);
    assert q !in s.free;
    forall x | x in t.free ensures IsNext(t.free.Keys, x, t.mem[x].ptr) {
      assert IsNext(s.free.Keys, x, s.mem[x].ptr);
    }
  }

  lemma SplitAlloc(s: Heap, prev: nat, p: nat, n: nat)
    requires CanCarve(s, prev, p, n) && s.free[p] > n && p in s.mem && p != BASE && p !in s.alloc
    ensures var t := Split(s, prev, p, n); Allocated(t.mem, t.free, t.alloc)
    ensures p + (s.free[p] - n) !in s.alloc && p + (s.free[p] - n) !in s.free
  {
    hide Ring, Covers, Below, IsNext;
    var t, q := Split(s, prev, p, n), p + (s.free[p] - n);
    forall a | a in s.alloc
      ensures Apart(q, n, a, s.alloc[a]) && Apart(a, s.alloc[a], p, t.free[p]) && a != q && a != p
    {
      assert Apart(a, s.alloc[a], p, s.free[p]);
    }
    AllocatedAdd(s, t.mem, t.free, q, n);
  }

  lemma SplitCovers(s: Heap, prev: nat, p: nat, n: nat)
    requires CanCarve(s, prev, p, n) && s.free[p] > n && p in s.mem && p + (s.free[p] - n) !in s.alloc
    ensures Covers(Split(s, prev, p, n).free, Split(s, prev, p, n).alloc, s.got)
  {
    hide Ring, Allocated, Separated, Within, Below, Shape;
    var q, f := p + (s.free[p] - n), s.free[p := s.free[p] - n];
    forall u: nat ensures u in s.got <==> Within(f, u) || Within(s.alloc[q := n], u) {
      WithinShrunk(s.free, p, n, u);
      PutWithin(s.alloc, q, n, u);
      assert u in s.got <==> Within(s.free, u) || Within(s.alloc, u);
    }
  }

  lemma WithinShrunk(free: Blocks, p: nat, n: nat, u: nat)
    requires p in free && free[p] > n
    ensures Within(free, u) <==> Within(free[p := free[p] - n], u) || p + (free[p] - n) <= u < p + free[p]
  {
    var t := free[p := free[p] - n];
    assert p in t && t[p] == free[p] - n;
    assert forall a :: a in free && a != p ==> a in t && t[a] == free[a];
    if Within(free, u) {
      var a :| a in free && a <= u < a + free[a];
      assert a in t && (a <= u < a + t[a] || a == p);
    }
    if Within(t, u) {
      var a :| a in t && a <= u < a + t[a];
      assert a in free && a <= u < a + free[a];
    }
  }
}
