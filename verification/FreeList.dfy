/** The free list of the K&R allocator in user/umalloc.c (K&R 2nd ed., section
    8.7) as values: the free blocks, the ring of headers that links them in
    address order, and the units that free and allocated blocks cover. Addresses
    count header-sized units. */
module FreeList {

  const BASE: nat := 0                    // the static header, below the heap

  datatype Header = Header(ptr: nat, size: nat)

  /** Blocks by address, with their sizes. */
  type Blocks = map<nat, nat>

  datatype Heap = Heap(
    mem: map<nat, Header>,                // headers by address
    freep: nat,
    ready: bool,                          // freep != 0
    brk: nat,                             // the end of what sbrk has given
    free: Blocks,                         // the static header among them
    alloc: Blocks,
    got: set<nat>)                        // all units ever obtained

  ghost predicate Shape(free: Blocks) {
    BASE in free && free[BASE] == 0 && forall a :: a in free && a != BASE ==> free[a] > 0
  }

  /** No two free blocks overlap; gap is 1 if none may even touch. */
  ghost predicate Separated(free: Blocks, gap: nat) {
    forall a, b :: a in free && b in free && a < b ==> a + free[a] + gap <= b
  }

  /** n is the next free block after a, around the one wrap point. */
  ghost predicate IsNext(free: set<nat>, a: nat, n: nat) {
    n in free &&
    if a < n then forall x :: x in free ==> x <= a || n <= x
    else n == BASE && forall x :: x in free ==> x <= a
  }

  /** The headers link the free blocks into a ring in address order. */
  ghost predicate Ring(mem: map<nat, Header>, free: Blocks) {
    forall a :: a in free ==> a in mem && mem[a].size == free[a] && IsNext(free.Keys, a, mem[a].ptr)
  }

  predicate Apart(a: nat, n: nat, b: nat, m: nat) {
    a + n <= b || b + m <= a
  }

  /** Allocated blocks have their size in their header, and overlap neither
      free blocks nor each other. */
  ghost predicate Allocated(mem: map<nat, Header>, free: Blocks, alloc: Blocks) {
    && (forall a :: a in alloc ==> a != BASE && alloc[a] > 0 && a in mem && mem[a].size == alloc[a])
    && (forall a, b :: a in alloc && b in free ==> Apart(a, alloc[a], b, free[b]))
    && (forall a, b :: a in alloc && b in alloc && a != b ==> Apart(a, alloc[a], b, alloc[b]))
  }

  /** Unit u lies in one of the blocks. */
  ghost predicate Within(bs: Blocks, u: nat) {
    exists a :: a in bs && a <= u < a + bs[a]
  }

  /** Free and allocated blocks together cover exactly the units obtained. */
  ghost predicate Covers(free: Blocks, alloc: Blocks, got: set<nat>) {
    forall u: nat :: u in got <==> Within(free, u) || Within(alloc, u)
  }

  /** Nothing lies at or above the break. */
  ghost predicate Below(bs: Blocks, brk: nat) {
    forall a :: a in bs ==> a + bs[a] <= brk
  }

  ghost predicate Inv(s: Heap) {
    && Shape(s.free) && Separated(s.free, 1) && Allocated(s.mem, s.free, s.alloc)
    && Covers(s.free, s.alloc, s.got) && Below(s.free, s.brk) && Below(s.alloc, s.brk) && s.brk > BASE
    && s.freep in s.free && (s.ready ==> Ring(s.mem, s.free))
    && (!s.ready ==> s.free == map[BASE := 0] && s.alloc == map[])
  }

  // ---- adding a free block ----

  /** Block b of size n lies between free block p and its successor. */
  ghost predicate Fits(mem: map<nat, Header>, free: Blocks, p: nat, b: nat, n: nat) {
    && Shape(free) && Separated(free, 1) && Ring(mem, free) && p in free && n > 0 && p < b
    && (mem[p].ptr <= p || b < mem[p].ptr) && forall x :: x in free ==> Apart(b, n, x, free[x])
  }

  function PutMem(mem: map<nat, Header>, p: nat, b: nat, n: nat): map<nat, Header>
    requires p in mem
  {
    mem[b := Header(mem[p].ptr, n)][p := Header(b, mem[p].size)]
  }

  lemma PutFree(mem: map<nat, Header>, free: Blocks, p: nat, b: nat, n: nat)
    requires Fits(mem, free, p, b, n)
    ensures b !in free && Shape(free[b := n]) && Separated(free[b := n], 0)
    ensures forall x, y :: x in free && y in free && x < y ==> x + free[x] + 1 <= y
  {
  }

  lemma PutRing(mem: map<nat, Header>, free: Blocks, p: nat, b: nat, n: nat)
    requires Fits(mem, free, p, b, n)
    ensures Ring(PutMem(mem, p, b, n), free[b := n])
  {
    hide IsNext, Separated;
    PutFree(mem, free, p, b, n);
    var m, f := PutMem(mem, p, b, n), free[b := n];
    assert f.Keys == free.Keys + {b};
    assert IsNext(free.Keys, p, mem[p].ptr);
    NextNew(free.Keys, p, mem[p].ptr, b);
    forall a | a in f ensures a in m && m[a].size == f[a] && IsNext(f.Keys, a, m[a].ptr) {
      if a != b && a != p {
        assert IsNext(free.Keys, a, mem[a].ptr);
        NextOther(free.Keys, p, mem[p].ptr, b, a, mem[a].ptr);
      }
    }
  }

  lemma NextNew(ks: set<nat>, p: nat, n: nat, b: nat)
    requires BASE in ks && p in ks && IsNext(ks, p, n) && p < b && (n <= p || b < n)
    ensures IsNext(ks + {b}, p, b) && IsNext(ks + {b}, b, n)
  {
  }

  lemma NextOther(ks: set<nat>, p: nat, n: nat, b: nat, a: nat, na: nat)
    requires BASE in ks && p in ks && IsNext(ks, p, n) && p < b && (n <= p || b < n)
    requires a in ks && a != p && IsNext(ks, a, na)
    ensures IsNext(ks + {b}, a, na)
  {
  }

  lemma NextGone(ks: set<nat>, a: nat, n: nat, m: nat)
    requires BASE in ks && a in ks && a < n && n != BASE && IsNext(ks, a, n) && IsNext(ks, n, m)
    ensures IsNext(ks - {n}, a, m)
  {
  }

  lemma NextStays(ks: set<nat>, a: nat, n: nat, x: nat, nx: nat)
    requires BASE in ks && a in ks && a < n && n != BASE && IsNext(ks, a, n)
    requires x in ks && x != a && x != n && IsNext(ks, x, nx)
    ensures IsNext(ks - {n}, x, nx)
  {
  }

  lemma PutWithin(free: Blocks, b: nat, n: nat, u: nat)
    requires b !in free
    ensures Within(free[b := n], u) <==> Within(free, u) || b <= u < b + n
  {
    var f := free[b := n];
    assert b in f && f[b] == n;
    assert forall a :: a in free ==> a in f && f[a] == free[a];
  }

  // ---- joining two free blocks that touch ----

  function JoinFree(free: Blocks, a: nat, n: nat): Blocks
    requires a in free && n in free
  {
    (free - {n})[a := free[a] + free[n]]
  }

  function JoinMem(mem: map<nat, Header>, a: nat, n: nat): map<nat, Header>
    requires a in mem && n in mem
  {
    mem[a := Header(mem[n].ptr, mem[a].size + mem[n].size)]
  }

  ghost predicate Touch(free: Blocks, a: nat, n: nat) {
    a in free && n in free && a != BASE && n != BASE && a + free[a] == n && Shape(free) && Separated(free, 0)
  }

  lemma JoinShape(free: Blocks, a: nat, n: nat)
    requires Touch(free, a, n)
    ensures Shape(JoinFree(free, a, n)) && Separated(JoinFree(free, a, n), 0)
  {
  }

  lemma JoinRing(mem: map<nat, Header>, free: Blocks, a: nat, n: nat)
    requires Touch(free, a, n) && Ring(mem, free)
    ensures mem[a].ptr == n && Ring(JoinMem(mem, a, n), JoinFree(free, a, n))
  {
    hide IsNext, Separated;
    var m, f := JoinMem(mem, a, n), JoinFree(free, a, n);
    assert f.Keys == free.Keys - {n};
    assert IsNext(free.Keys, a, mem[a].ptr) && IsNext(free.Keys, n, mem[n].ptr);
    NextTouch(free, a, n, mem[a].ptr);
    NextGone(free.Keys, a, n, mem[n].ptr);
    forall x | x in f ensures x in m && m[x].size == f[x] && IsNext(f.Keys, x, m[x].ptr) {
      if x != a {
        assert IsNext(free.Keys, x, mem[x].ptr);
        NextStays(free.Keys, a, n, x, mem[x].ptr);
      }
    }
  }

  lemma NextTouch(free: Blocks, a: nat, n: nat, na: nat)
    requires Touch(free, a, n) && IsNext(free.Keys, a, na)
    ensures na == n
  {
  }

  lemma JoinWithin(free: Blocks, a: nat, n: nat, u: nat)
    requires Touch(free, a, n)
    ensures Within(JoinFree(free, a, n), u) <==> Within(free, u)
  {
    var f := JoinFree(free, a, n);
    assert a in f && f[a] == free[a] + free[n];
    assert forall x :: x in free && x != a && x != n ==> x in f && f[x] == free[x];
    if Within(free, u) {
      var x :| x in free && x <= u < x + free[x];
      if x == n {
        assert a <= u < a + f[a];
      } else {
        assert x in f && x <= u < x + f[x];
      }
    }
    if Within(f, u) {
      var x :| x in f && x <= u < x + f[x];
      if x == a && u >= n {
        assert n in free && n <= u < n + free[n];
      } else {
        assert x in free && x <= u < x + free[x];
      }
    }
  }

  // ---- free: the whole step ----

  ghost predicate Disjoint(free: Blocks, alloc: Blocks) {
    forall a, x :: a in alloc && x in free ==> alloc[a] > 0 && Apart(a, alloc[a], x, free[x])
  }

  lemma PutDisjoint(free: Blocks, alloc: Blocks, b: nat)
    requires BASE in free && Disjoint(free, alloc) && b in alloc
    requires forall a :: a in alloc && a != b ==> Apart(a, alloc[a], b, alloc[b])
    ensures Disjoint(free[b := alloc[b]], alloc - {b})
  {
  }

  lemma JoinDisjoint(free: Blocks, alloc: Blocks, a: nat, n: nat)
    requires Touch(free, a, n) && Disjoint(free, alloc)
    ensures Disjoint(JoinFree(free, a, n), alloc)
  {
  }

  /** Free blocks keep a gap, but for p below b, and, with up, b below others. */
  ghost predicate TightBut(free: Blocks, p: nat, b: nat, up: bool) {
    forall x, y :: x in free && y in free && x < y ==> x + free[x] + 1 <= y || (x == p && y == b) || (up && x == b)
  }

  lemma PutTight(mem: map<nat, Header>, free: Blocks, p: nat, b: nat, n: nat)
    requires Fits(mem, free, p, b, n)
    ensures TightBut(free[b := n], p, b, true)
  {
  }

  lemma UpTight(free: Blocks, p: nat, b: nat)
    requires TightBut(free, p, b, true) && Separated(free, 0) && b in free && p < b
    ensures b + free[b] !in free ==> TightBut(free, p, b, false)
    ensures Touch(free, b, b + free[b]) ==> TightBut(JoinFree(free, b, b + free[b]), p, b, false)
  {
  }

  lemma DownTight(free: Blocks, p: nat, b: nat)
    requires TightBut(free, p, b, false) && Separated(free, 0) && p in free && b in free && p < b
    ensures p + free[p] != b ==> Separated(free, 1)
    ensures Touch(free, p, b) ==> Separated(JoinFree(free, p, b), 1)
  {
  }

  /** What free(b) leaves when it joins b with the block above it. */
  function Up(free: Blocks, b: nat, n: nat): Blocks {
    if b + n in free then JoinFree(free[b := n], b, b + n) else free[b := n]
  }

  /** The free blocks after free(b), found to belong after p. */
  function Returned(free: Blocks, p: nat, b: nat, n: nat): Blocks {
    var up := Up(free, b, n);
    if p in up && b in up && p + up[p] == b then JoinFree(up, p, b) else up
  }

  /** What one step of the join keeps. */
  ghost predicate Sound(mem: map<nat, Header>, free: Blocks, alloc: Blocks) {
    Shape(free) && Separated(free, 0) && Ring(mem, free) && Disjoint(free, alloc)
  }

  lemma JoinSound(mem: map<nat, Header>, free: Blocks, alloc: Blocks, a: nat, n: nat)
    requires Sound(mem, free, alloc) && a in free && n in free && a != BASE && n != BASE && a + free[a] == n
    ensures Sound(JoinMem(mem, a, n), JoinFree(free, a, n), alloc) && mem[a].ptr == n
    ensures forall u: nat :: Within(JoinFree(free, a, n), u) <==> Within(free, u)
  {
    hide Shape, Separated, Ring, Disjoint, Within;
    assert Touch(free, a, n);
    JoinShape(free, a, n);
    JoinRing(mem, free, a, n);
    JoinDisjoint(free, alloc, a, n);
    forall u: nat ensures Within(JoinFree(free, a, n), u) <==> Within(free, u) {
      JoinWithin(free, a, n, u);
    }
  }

  /** The headers after free(b). */
  function ReturnedMem(mem: map<nat, Header>, free: Blocks, p: nat, b: nat, n: nat): map<nat, Header>
    requires p in mem && b in mem
  {
    var m := mem[b := if b + n in free && b + n in mem then Header(mem[b + n].ptr, n + mem[b + n].size)
                      else Header(mem[p].ptr, n)];
    if p + mem[p].size == b then m[p := Header(m[b].ptr, mem[p].size + m[b].size)]
    else m[p := Header(b, mem[p].size)]
  }

  ghost predicate CanFree(s: Heap, p: nat, b: nat) {
    Inv(s) && s.ready && b in s.alloc && Fits(s.mem, s.free, p, b, s.alloc[b])
  }

  lemma PutSound(s: Heap, p: nat, b: nat)
    requires CanFree(s, p, b)
    ensures p in s.mem && Sound(PutMem(s.mem, p, b, s.alloc[b]), s.free[b := s.alloc[b]], s.alloc - {b})
    ensures b !in s.free && TightBut(s.free[b := s.alloc[b]], p, b, true)
    ensures s.mem[p].size == s.free[p]
    ensures forall u: nat :: Within(s.free[b := s.alloc[b]], u) <==> Within(s.free, u) || b <= u < b + s.alloc[b]
  {
    hide Shape, Separated, Ring, Disjoint, Within, TightBut, Covers, Below, Allocated, Fits;
    var n := s.alloc[b];
    FitsHeader(s.mem, s.free, p, b, n);
    AllocDisjoint(s, b);
    PutFree(s.mem, s.free, p, b, n);
    PutRing(s.mem, s.free, p, b, n);
    PutTight(s.mem, s.free, p, b, n);
    PutDisjoint(s.free, s.alloc, b);
    forall u: nat ensures Within(s.free[b := s.alloc[b]], u) <==> Within(s.free, u) || b <= u < b + s.alloc[b] {
      PutWithin(s.free, b, n, u);
    }
  }

  lemma FitsHeader(mem: map<nat, Header>, free: Blocks, p: nat, b: nat, n: nat)
    requires Fits(mem, free, p, b, n)
    ensures p in free && p in mem && mem[p].size == free[p] && BASE in free && p < b
    ensures b + n in free ==> b + n in mem && mem[b + n].size == free[b + n] && mem[p].ptr == b + n
    ensures mem[p].ptr == b + n ==> b + n in free
  {
    hide Separated, IsNext;
    var q := mem[p].ptr;
    assert IsNext(free.Keys, p, q);
    NextIn(free.Keys, p, q);
    assert Apart(b, n, q, free[q]);
    if b + n in free {
      NextLeast(free.Keys, p, q, b + n);
    }
  }

  lemma NextIn(ks: set<nat>, a: nat, n: nat)
    requires IsNext(ks, a, n)
    ensures n in ks
  {
  }

  lemma NextLeast(ks: set<nat>, a: nat, n: nat, x: nat)
    requires IsNext(ks, a, n) && x in ks && x > a
    ensures a < n <= x
  {
  }

  lemma AllocDisjoint(s: Heap, b: nat)
    requires Inv(s) && b in s.alloc
    ensures Disjoint(s.free, s.alloc) && forall a :: a in s.alloc && a != b ==> Apart(a, s.alloc[a], b, s.alloc[b])
    ensures b in s.mem && b != BASE && s.alloc[b] > 0
  {
  }

  /** After free(b): the free blocks are in a ring again, none touching, and
      cover b's units besides those they covered. */
  lemma ReturnedSound(s: Heap, p: nat, b: nat)
    requires CanFree(s, p, b)
    ensures p in s.mem && b in s.mem
    ensures var n := s.alloc[b]; var f := Returned(s.free, p, b, n);
      Sound(ReturnedMem(s.mem, s.free, p, b, n), f, s.alloc - {b}) && Separated(f, 1) && p in f &&
      forall u: nat :: Within(f, u) <==> Within(s.free, u) || b <= u < b + n
  {
    hide Shape, Separated, Ring, Disjoint, Within, TightBut, Covers, Below, Allocated, Fits;
    var n := s.alloc[b];
    PutSound(s, p, b);
    AllocDisjoint(s, b);
    FitsHeader(s.mem, s.free, p, b, n);
    UpSound(s, p, b);
    var m1, f1, al := UpMem(s.mem, s.free, p, b, n), Up(s.free, b, n), s.alloc - {b};
    DownTight(f1, p, b);
    SoundShape(m1, f1, al);
    if p + f1[p] == b {
      JoinSound(m1, f1, al, p, b);
      DownTouch(f1, p, b);
      assert JoinMem(m1, p, b) == ReturnedMem(s.mem, s.free, p, b, n);
    } else {
      assert m1 == ReturnedMem(s.mem, s.free, p, b, n);
    }
  }

  /** The headers once b is in, joined with the block above it if it touches. */
  function UpMem(mem: map<nat, Header>, free: Blocks, p: nat, b: nat, n: nat): map<nat, Header>
    requires p in mem
  {
    var m := PutMem(mem, p, b, n);
    if b + n in free && b + n in m then JoinMem(m, b, b + n) else m
  }

  lemma UpSound(s: Heap, p: nat, b: nat)
    requires CanFree(s, p, b)
    ensures p in s.mem && b in s.mem
    ensures var n := s.alloc[b]; var f := Up(s.free, b, n);
      Sound(UpMem(s.mem, s.free, p, b, n), f, s.alloc - {b}) && Separated(f, 0) && TightBut(f, p, b, false) &&
      p in f && b in f && f[p] == s.free[p] &&
      forall u: nat :: Within(f, u) <==> Within(s.free, u) || b <= u < b + n
  {
    hide Shape, Separated, Ring, Disjoint, Within, TightBut, Covers, Below, Allocated, Fits;
    var n := s.alloc[b];
    PutSound(s, p, b);
    AllocDisjoint(s, b);
    FitsHeader(s.mem, s.free, p, b, n);
    var m0, f0, al := PutMem(s.mem, p, b, n), s.free[b := n], s.alloc - {b};
    SoundShape(m0, f0, al);
    UpTight(f0, p, b);
    if b + n in s.free {
      JoinSound(m0, f0, al, b, b + n);
      UpTouch(f0, b);
      SoundShape(JoinMem(m0, b, b + n), JoinFree(f0, b, b + n), al);
    } else {
      assert Up(s.free, b, n) == f0;
    }
    forall u: nat ensures Within(Up(s.free, b, n), u) <==> Within(s.free, u) || b <= u < b + n {
      assert Within(f0, u) <==> Within(s.free, u) || b <= u < b + n;
    }
  }

  lemma SoundShape(mem: map<nat, Header>, free: Blocks, alloc: Blocks)
    requires Sound(mem, free, alloc)
    ensures Separated(free, 0) && Shape(free) && (forall a :: a in free ==> a in mem) && BASE in free && free[BASE] == 0
  {
  }

  lemma UpTouch(free: Blocks, b: nat)
    requires Shape(free) && Separated(free, 0) && b in free && b != BASE && b + free[b] in free
    ensures Touch(free, b, b + free[b])
  {
  }

  lemma DownTouch(free: Blocks, p: nat, b: nat)
    requires Shape(free) && Separated(free, 0) && p in free && b in free && b != BASE && p + free[p] == b
    ensures Touch(free, p, b)
  {
  }

  lemma ReturnedBelow(free: Blocks, p: nat, b: nat, n: nat, brk: nat)
    requires Below(free, brk) && b + n <= brk && p < b
    requires p in Up(free, b, n) && p + Up(free, b, n)[p] == b ==> p in free
    ensures Below(Returned(free, p, b, n), brk)
  {
  }

  /** The heap after free(b). */
  function AfterFree(s: Heap, p: nat, b: nat): Heap
    requires b in s.alloc && p in s.mem && b in s.mem
  {
    s.(mem := ReturnedMem(s.mem, s.free, p, b, s.alloc[b]), free := Returned(s.free, p, b, s.alloc[b]),
       alloc := s.alloc - {b}, freep := p)
  }

  lemma AfterFreeInv(s: Heap, p: nat, b: nat)
    requires CanFree(s, p, b)
    ensures p in s.mem && b in s.mem && Inv(AfterFree(s, p, b))
  {
    hide Shape, Separated, Ring, Disjoint, Within, TightBut, Covers, Below, Allocated, Fits, Returned, ReturnedMem, Up;
    var n := s.alloc[b];
    ReturnedSound(s, p, b);
    FitsHeader(s.mem, s.free, p, b, n);
    UpSound(s, p, b);
    BelowAt(s.alloc, b, s.brk);
    ReturnedBelow(s.free, p, b, n, s.brk);
    BelowLess(s.alloc, b, s.brk);
    CoversMove(s.free, s.alloc, s.got, Returned(s.free, p, b, n), b);
    AllocatedLess(s, p, b);
    SoundShape(ReturnedMem(s.mem, s.free, p, b, n), Returned(s.free, p, b, n), s.alloc - {b});
  }

  lemma BelowAt(bs: Blocks, b: nat, brk: nat)
    requires Below(bs, brk) && b in bs
    ensures b + bs[b] <= brk
  {
  }

  lemma BelowLess(bs: Blocks, b: nat, brk: nat)
    requires Below(bs, brk)
    ensures Below(bs - {b}, brk)
  {
  }

  lemma CoversMove(free: Blocks, alloc: Blocks, got: set<nat>, f: Blocks, b: nat)
    requires Covers(free, alloc, got) && b in alloc
    requires forall u: nat :: Within(f, u) <==> Within(free, u) || b <= u < b + alloc[b]
    ensures Covers(f, alloc - {b}, got)
  {
    forall u: nat ensures Within(alloc, u) <==> Within(alloc - {b}, u) || b <= u < b + alloc[b] {
      WithinLess(alloc, b, u);
    }
    hide Within;
  }

  lemma WithinLess(bs: Blocks, b: nat, u: nat)
    requires b in bs
    ensures Within(bs, u) <==> Within(bs - {b}, u) || b <= u < b + bs[b]
  {
    var t := bs - {b};
    assert forall a :: a in bs && a != b ==> a in t && t[a] == bs[a];
    if Within(bs, u) {
      var a :| a in bs && a <= u < a + bs[a];
      assert a == b || (a in t && a <= u < a + t[a]);
    }
  }

  lemma AllocatedLess(s: Heap, p: nat, b: nat)
    requires CanFree(s, p, b) && p in s.mem && b in s.mem
    requires Sound(AfterFree(s, p, b).mem, AfterFree(s, p, b).free, s.alloc - {b})
    ensures Allocated(AfterFree(s, p, b).mem, AfterFree(s, p, b).free, s.alloc - {b})
  {
    hide Separated, Ring, Within, TightBut, Covers, Below, Returned, Up, Fits;
    FitsHeader(s.mem, s.free, p, b, s.alloc[b]);
    forall a | a in s.alloc && a != b
      ensures a in AfterFree(s, p, b).mem && AfterFree(s, p, b).mem[a] == s.mem[a]
    {
      assert Apart(a, s.alloc[a], p, s.free[p]);
    }
  }
}
