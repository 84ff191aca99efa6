/** free, morecore and malloc of user/umalloc.c. */
module Umalloc {
  import opened Common
  import opened FreeList
  import opened Carving

  const UNIT: nat := 16                      // sizeof(Header)
  const INT_MAX: nat := 0x8000_0000
  const UINT_MAX: nat := 0x1_0000_0000

  /** The number sbrk sees when it is asked for n units: the product is made in
      64 bits and passed as an int. */
  function SbrkArg(n: nat): int {
    var low := n * UNIT % UINT_MAX;
    if low < INT_MAX then low else low - UINT_MAX
  }

  /** For every request malloc can make: below 2 GiB sbrk sees what was meant;
      from there on a negative number, which shrinks the process; and 0 or 16 for
      the two largest. */
  lemma SbrkSees(n: nat)
    requires n <= 0x1000_0001
    ensures n < 0x800_0000 ==> SbrkArg(n) == n * UNIT
    ensures 0x800_0000 <= n < 0x1000_0000 ==> SbrkArg(n) == n * UNIT - UINT_MAX < 0
    ensures n == 0x1000_0000 ==> SbrkArg(n) == 0
    ensures n == 0x1000_0001 ==> SbrkArg(n) == 16
  {
  }

  lemma LargestRequests(nbytes: nat)
    requires nbytes < UINT_MAX
    ensures Nunits(nbytes) <= 0x1000_0001
    ensures Nunits(nbytes) >= 0x800_0000 <==> nbytes > 0x7FFF_FFE0
    ensures SbrkArg(Nunits(nbytes)) < 0 <==> 0x7FFF_FFE0 < nbytes <= 0xFFFF_FFE0
    ensures SbrkArg(Nunits(nbytes)) == 0 <==> 0xFFFF_FFE0 < nbytes <= 0xFFFF_FFF0
    ensures nbytes > 0xFFFF_FFF0 ==> SbrkArg(Nunits(nbytes)) == 16
  {
    SbrkSees(Nunits(nbytes));
  }

  /** The units a process has after sbrk(arg) returned hp: those above the old
      break if arg is positive, at most those it had if it is negative. */
  ghost predicate SbrkGives(got: set<nat>, hp: nat, arg: int, now: set<nat>) {
    if arg >= 0 then now == got + Span(hp, arg / UNIT) else now <= got
  }

  function Nunits(nbytes: nat): nat {
    (nbytes + UNIT - 1) / UNIT + 1
  }

  /** What morecore asks for when nu units are wanted. */
  function Units(nu: nat): nat {
    if nu < 4096 then 4096 else nu
  }

  /** Some block has at least n units. */
  ghost predicate HasBlock(free: Blocks, n: nat) {
    exists g :: g in free && free[g] >= n
  }

  /** The free blocks that free's search has still to pass before it stands
      below bp. */
  function Ahead(free: set<nat>, p: nat, bp: nat): set<nat> {
    if p < bp then set x | x in free && p < x < bp else set x | x in free && (x > p || x < bp)
  }

  lemma AheadStep(free: set<nat>, p: nat, n: nat, bp: nat)
    requires BASE in free && p in free && IsNext(free, p, n) && bp !in free
    requires !(p < bp < n) && !(n <= p && p < bp)
    ensures n in Ahead(free, p, bp) && Ahead(free, n, bp) <= Ahead(free, p, bp) - {n}
  {
  }

  /** The free blocks after p, up to and with t, around the ring. */
  function After(free: set<nat>, p: nat, t: nat): set<nat> {
    if p == t then {} else if p < t then set x | x in free && p < x <= t else set x | x in free && (x > p || x <= t)
  }

  lemma AfterStep(free: set<nat>, p: nat, t: nat, n: nat)
    requires BASE in free && p in free && t in free && p != t && IsNext(free, p, n)
    ensures n in After(free, p, t) && After(free, n, t) == After(free, p, t) - {n}
  {
  }

  lemma AfterAll(free: set<nat>, t: nat, p: nat, g: nat)
    requires BASE in free && t in free && IsNext(free, t, p) && g in free
    ensures g == p || g in After(free, p, t)
  {
  }

  /** Unbacked: sbrk has succeeded with another number than was meant, and the
      block that is about to be freed at hp is not memory of the process. */
  datatype Core = More | NoMemory | Unbacked(hp: nat)

  datatype Result = Got(addr: nat) | Null | Astray

  class Umalloc {
    var s: Heap

    constructor ()
      ensures Inv(s) && s.alloc == map[] && s.got == {}
    {
      s := Heap(map[], BASE, false, 1, map[BASE := 0], map[], {});
    }

    /** Gives back the allocated block at b. The search for its place ends; the
        block joins its free neighbours, no unit is lost, and none is free and
        allocated at once. */
    method Free(b: nat)
      requires Inv(s) && b in s.alloc
      modifies this
      ensures Inv(s) && s.ready && s.alloc == old(s).alloc - {b} && s.got == old(s).got && s.brk == old(s).brk
      ensures HasBlock(s.free, old(s).alloc[b])
    {
      hide Shape, Separated, Covers, Below, Allocated, IsNext, Disjoint, Returned, ReturnedMem;
      var p := s.freep;
      FreeFacts(s, b);
      while !(b > p && b < s.mem[p].ptr)
        invariant s == old(s) && p in s.free
        decreases |Ahead(s.free.Keys, p, b)|
      {
        var n := s.mem[p].ptr;
        assert IsNext(s.free.Keys, p, n);
        OneWrap(s.free.Keys, p, n);
        if p >= n && (b > p || b < n) {
          break;
        }
        AheadStep(s.free.Keys, p, n, b);
        NextIn(s.free.Keys, p, n);
        Smaller(Ahead(s.free.Keys, n, b), Ahead(s.free.Keys, p, b), n);
        p := n;
      }
      FreePlace(s, p, b);
      AfterFreeInv(s, p, b);
      ReturnedBig(s.free, p, b, s.alloc[b]);
      Link(p, b);
    }

    /** free once the place is found: joins b to the upper and the lower
        neighbour, or links it between them. */
    method Link(p: nat, b: nat)
      requires CanFree(s, p, b)
      modifies this
      ensures p in old(s).mem && b in old(s).mem && s == AfterFree(old(s), p, b)
    {
      hide Shape, Separated, Covers, Below, Ring, Allocated, Disjoint, Returned, Fits;
      LinkFacts(s, p, b);
      var n := s.mem[b].size;
      if b + n == s.mem[p].ptr {
        var up := s.mem[s.mem[p].ptr];
        s := s.(mem := s.mem[b := Header(up.ptr, n + up.size)]);
      } else {
        s := s.(mem := s.mem[b := Header(s.mem[p].ptr, n)]);
      }
      if p + s.mem[p].size == b {
        s := s.(mem := s.mem[p := Header(s.mem[b].ptr, s.mem[p].size + s.mem[b].size)]);
      } else {
        s := s.(mem := s.mem[p := Header(b, s.mem[p].size)]);
      }
      s := s.(freep := p, free := Returned(s.free, p, b, s.alloc[b]), alloc := s.alloc - {b});
    }

    /** Gets Units(nu) units from sbrk, whose answer is given, and frees them as
        one block. Free and allocated blocks go on to cover what the process has
        exactly when the request is below 2 GiB; the model follows the code no
        further if not. */
    method Morecore(nu: nat, answer: Option<nat>) returns (r: Core)
      requires Inv(s) && s.ready && nu <= 0x1000_0001 && (answer.Some? ==> answer.value >= s.brk)
      modifies this
      ensures Inv(s) && s.ready && s.alloc == old(s).alloc
      ensures r == if answer.None? then NoMemory else if nu * UNIT < INT_MAX then More else Unbacked(answer.value)
      ensures r.More? ==> s.got == old(s).got + Span(answer.value, Units(nu)) && s.brk == answer.value + Units(nu)
      ensures r.More? ==> HasBlock(s.free, nu)
      ensures !r.More? ==> s == old(s)
      ensures r.Unbacked? ==> forall now ::
                SbrkGives(s.got, r.hp, SbrkArg(nu), now) ==> !Covers(s.free, s.alloc[r.hp := nu], now)
    {
      hide Shape, Separated, Covers, Below, Ring, Allocated, IsNext, Disjoint;
      var n := Units(nu);
      var arg := SbrkArg(n);
      SbrkSees(n);
      if answer.None? {
        return NoMemory;
      }
      var hp := answer.value;
      if arg != n * UNIT {
        forall now | SbrkGives(s.got, hp, arg, now) ensures !Covers(s.free, s.alloc[hp := n], now) {
          BackedIff(s, hp, n, now);
        }
        return Unbacked(hp);
      }
      GrowInv(s, hp, n);
      s := Grown(s, hp, n);
      Free(hp);
      AllocBack(old(s).alloc, hp, n);
      return More;
    }

    /** Returns the address of a block of at least nbytes bytes after its header,
        taken from free units. The search ends; it asks sbrk, whose answer is
        given, exactly if no free block is large enough, and once. None, with
        nothing changed, if sbrk has no memory then. Astray: morecore was
        Unbacked. */
    method Malloc(nbytes: nat, answer: Option<nat>) returns (r: Result)
      requires Inv(s) && nbytes < UINT_MAX && (answer.Some? ==> answer.value >= s.brk)
      modifies this
      ensures Inv(s) && s.ready
      ensures r.Got? ==> r.addr > 0 && r.addr - 1 !in old(s).alloc
      ensures r.Got? ==> s.alloc == old(s).alloc[r.addr - 1 := Nunits(nbytes)]
      ensures r.Got? ==> nbytes <= UNIT * (Nunits(nbytes) - 1) < nbytes + UNIT
      ensures !r.Got? ==> s.alloc == old(s).alloc && s.got == old(s).got && s.brk == old(s).brk
      ensures HasBlock(old(s).free, Nunits(nbytes)) ==> r.Got? && s.got == old(s).got && s.brk == old(s).brk
      ensures !HasBlock(old(s).free, Nunits(nbytes)) ==>
                if answer.None? then r.Null? else if nbytes > 0x7FFF_FFE0 then r.Astray?
                else r.Got? && s.got == old(s).got + Span(answer.value, Units(Nunits(nbytes)))
    {
      hide Shape, Separated, Covers, Below, Ring, Allocated, IsNext, Disjoint, After;
      var nunits := Nunits(nbytes);
      LargestRequests(nbytes);
      ghost var fits := HasBlock(s.free, nunits);
      if !s.ready {
        FirstRing(s);
        s := s.(mem := s.mem[BASE := Header(BASE, 0)], freep := BASE, ready := true);
      }
      var prevp := s.freep;
      RingAt(s, prevp);
      var p := s.mem[prevp].ptr;
      RingAt(s, p);
      ghost var more := false;
      AfterStart(s, p, nunits);
      while true
        invariant Inv(s) && s.ready && s.alloc == old(s).alloc
        invariant !more ==> s.got == old(s).got && s.brk == old(s).brk
        invariant !more ==> s.free == old(s).free
        invariant more ==> !fits && answer.Some? && nbytes <= 0x7FFF_FFE0
        invariant more ==> s.got == old(s).got + Span(answer.value, Units(nunits))
        invariant prevp in s.free && prevp in s.mem && s.mem[prevp].ptr == p && p in s.free && p in s.mem
        invariant s.mem[p].size == s.free[p]
        invariant fits || more ==> Waits(s.free, p, s.freep, nunits)
        decreases !more, |After(s.free.Keys, p, s.freep)|
      {
        if s.mem[p].size >= nunits {
          var q := Carve(prevp, p, nunits);
          return Got(q + 1);
        }
        if p == s.freep {
          if fits || more {
            WaitsHere(s.free, p, nunits);
          }
          var core := Morecore(nunits, answer);
          if core.NoMemory? {
            return Null;
          }
          if core.Unbacked? {
            return Astray;
          }
          more := true;
          p := s.freep;
          RingAt(s, p);
          AfterStart(s, s.mem[p].ptr, nunits);
        } else {
          RingAt(s, p);
          AfterNext(s, p, nunits, fits || more);
        }
        prevp := p;
        p := s.mem[p].ptr;
        RingAt(s, p);
      }
    }

    /** malloc's cut: the whole block, or its tail. */
    method Carve(prevp: nat, p: nat, nunits: nat) returns (q: nat)
      requires CanCarve(s, prevp, p, nunits) && p in s.mem && s.mem[p].size == s.free[p]
      modifies this
      ensures Inv(s) && s.ready && q !in old(s).alloc && s.alloc == old(s).alloc[q := nunits]
      ensures s.got == old(s).got && s.brk == old(s).brk
    {
      hide Shape, Separated, Covers, Below, Ring, Allocated, Disjoint, Within;
      CarveRing(s, prevp, p, nunits);
      if s.mem[p].size == nunits {
        UnlinkedInv(s, prevp, p);
        s := s.(mem := s.mem[prevp := Header(s.mem[p].ptr, s.mem[prevp].size)], free := s.free - {p},
                alloc := s.alloc[p := s.free[p]], freep := prevp);
        q := p;
      } else {
        SplitInv(s, prevp, p, nunits);
        SplitAlloc(s, prevp, p, nunits);
        q := p + (s.free[p] - nunits);
        s := s.(mem := s.mem[p := Header(s.mem[p].ptr, s.mem[p].size - nunits)]
                            [q := Header(if q in s.mem then s.mem[q].ptr else 0, nunits)],
                free := s.free[p := s.free[p] - nunits], alloc := s.alloc[q := nunits], freep := prevp);
      }
    }
  }

  /** A large enough block lies at p or after it, no further than t. */
  ghost predicate Waits(free: Blocks, p: nat, t: nat, n: nat) {
    exists g :: g in free && free[g] >= n && (g == p || g in After(free.Keys, p, t))
  }

  lemma WaitsHere(free: Blocks, p: nat, n: nat)
    requires Waits(free, p, p, n)
    ensures p in free && free[p] >= n
  {
  }

  lemma RingAt(s: Heap, p: nat)
    requires Inv(s) && s.ready && p in s.free
    ensures p in s.mem && s.mem[p].size == s.free[p] && IsNext(s.free.Keys, p, s.mem[p].ptr) && s.mem[p].ptr in s.free
    ensures BASE in s.free
  {
  }

  lemma FirstRing(s: Heap)
    requires Inv(s) && !s.ready
    ensures Inv(s.(mem := s.mem[BASE := Header(BASE, 0)], freep := BASE, ready := true))
  {
  }

  /** From the block after t the whole ring is ahead. */
  lemma AfterStart(s: Heap, p: nat, n: nat)
    requires Inv(s) && s.ready && s.freep in s.mem && p == s.mem[s.freep].ptr
    ensures HasBlock(s.free, n) ==> Waits(s.free, p, s.freep, n)
  {
    RingAt(s, s.freep);
    forall g | g in s.free ensures g == p || g in After(s.free.Keys, p, s.freep) {
      AfterAll(s.free.Keys, s.freep, p, g);
    }
    hide After, Ring, Separated, Covers, Below, Allocated, IsNext, Shape;
  }

  lemma AfterNext(s: Heap, p: nat, n: nat, more: bool)
    requires Inv(s) && s.ready && p in s.free && p != s.freep && p in s.mem && s.free[p] < n
    requires more ==> Waits(s.free, p, s.freep, n)
    ensures more ==> Waits(s.free, s.mem[p].ptr, s.freep, n)
    ensures |After(s.free.Keys, s.mem[p].ptr, s.freep)| < |After(s.free.Keys, p, s.freep)|
  {
    RingAt(s, p);
    AfterStep(s.free.Keys, p, s.freep, s.mem[p].ptr);
    hide After, Ring, Separated, Covers, Below, Allocated, IsNext, Shape;
  }

  lemma FreeFacts(s: Heap, b: nat)
    requires Inv(s) && b in s.alloc
    ensures s.ready && s.freep in s.free && b !in s.free && b != BASE && BASE in s.free
    ensures forall a :: a in s.free ==> a in s.mem
  {
    AllocDisjoint(s, b);
    assert b in s.free ==> Apart(b, s.alloc[b], b, s.free[b]);
  }

  lemma OneWrap(free: set<nat>, p: nat, n: nat)
    requires IsNext(free, p, n)
    ensures n <= p ==> n == BASE
  {
  }

  lemma FreePlace(s: Heap, p: nat, b: nat)
    requires Inv(s) && s.ready && b in s.alloc && p in s.free && p in s.mem
    requires p < b && (b < s.mem[p].ptr || s.mem[p].ptr <= p)
    ensures CanFree(s, p, b)
  {
    AllocDisjoint(s, b);
  }

  lemma LinkFacts(s: Heap, p: nat, b: nat)
    requires CanFree(s, p, b)
    ensures var n := s.alloc[b];
      p in s.mem && b in s.mem && s.mem[b].size == n && p != b && n > 0 &&
      (s.mem[p].ptr == b + n <==> b + n in s.free) && (b + n in s.free ==> b + n in s.mem) && s.mem[p].size == s.free[p]
  {
    hide Ring, Fits, Separated, Covers, Below;
    FitsHeader(s.mem, s.free, p, b, s.alloc[b]);
    AllocDisjoint(s, b);
  }

  lemma ReturnedBig(free: Blocks, p: nat, b: nat, n: nat)
    requires p in free && p < b
    ensures HasBlock(Returned(free, p, b, n), n)
  {
    var up := Up(free, b, n);
    assert b in up && up[b] >= n;
    var f := Returned(free, p, b, n);
    assert (p in f && f[p] >= n) || (b in f && f[b] >= n);
  }

  function Span(lo: nat, n: nat): set<nat> {
    if n == 0 then {} else Span(lo, n - 1) + {lo + n - 1}
  }

  lemma {:induction false} SpanIn(lo: nat, n: nat, u: nat)
    ensures u in Span(lo, n) <==> lo <= u < lo + n
  {
    if n > 0 {
      SpanIn(lo, n - 1, u);
    }
  }

  /** A new region from sbrk, at or above the break, handed out as one block. */
  function Grown(s: Heap, hp: nat, n: nat): Heap {
    s.(mem := s.mem[hp := Header(if hp in s.mem then s.mem[hp].ptr else 0, n)], alloc := s.alloc[hp := n],
       got := s.got + Span(hp, n), brk := hp + n)
  }

  lemma GrowInv(s: Heap, hp: nat, n: nat)
    requires Inv(s) && s.ready && hp >= s.brk && n > 0
    ensures Inv(Grown(s, hp, n)) && hp !in s.alloc
  {
    hide Separated, Ring, Covers, Within, Shape;
    var t := Grown(s, hp, n);
    GrowApart(s, hp);
    assert Below(t.free, t.brk) && Below(t.alloc, t.brk);
    forall a | a in s.alloc ensures Apart(hp, n, a, s.alloc[a]) && a != hp {
    }
    AllocatedAdd(s, t.mem, t.free, hp, n);
    GrowRing(s, hp, n);
    GrowCovers(s, hp, n);
  }

  lemma GrowApart(s: Heap, hp: nat)
    requires Inv(s) && hp >= s.brk
    ensures hp !in s.free && hp !in s.alloc
  {
  }

  lemma GrowRing(s: Heap, hp: nat, n: nat)
    requires Inv(s) && s.ready && hp !in s.free
    ensures Ring(Grown(s, hp, n).mem, s.free)
  {
    hide IsNext, Separated, Covers, Below, Allocated;
  }

  lemma GrowCovers(s: Heap, hp: nat, n: nat)
    requires Covers(s.free, s.alloc, s.got) && hp !in s.alloc
    ensures Covers(s.free, Grown(s, hp, n).alloc, Grown(s, hp, n).got)
  {
    forall u: nat ensures u in Grown(s, hp, n).got <==> Within(s.free, u) || Within(s.alloc[hp := n], u) {
      PutWithin(s.alloc, hp, n, u);
      SpanIn(hp, n, u);
      assert u in s.got <==> Within(s.free, u) || Within(s.alloc, u);
    }
    hide Within;
  }

  /** A new block of n units is covered by what sbrk gave exactly when sbrk saw
      the number that was meant. */
  lemma BackedIff(s: Heap, hp: nat, n: nat, now: set<nat>)
    requires Inv(s) && hp >= s.brk && 0 < n <= 0x1000_0001 && SbrkGives(s.got, hp, SbrkArg(n), now)
    ensures Covers(s.free, s.alloc[hp := n], now) <==> n * UNIT < INT_MAX
  {
    SbrkSees(n);
    GrowApart(s, hp);
    if n * UNIT < INT_MAX {
      GrowCovers(s, hp, n);
      assert now == Grown(s, hp, n).got;
    } else {
      var u := hp + n - 1;
      var al := s.alloc[hp := n];
      assert hp in al && hp <= u < hp + al[hp];
      GotBelow(s, u);
      if SbrkArg(n) >= 0 {
        SpanIn(hp, SbrkArg(n) / UNIT, u);
      }
    }
  }

  lemma GotBelow(s: Heap, u: nat)
    requires Inv(s) && u >= s.brk
    ensures u !in s.got
  {
  }

  lemma AllocBack(alloc: Blocks, hp: nat, n: nat)
    requires hp !in alloc
    ensures alloc[hp := n] - {hp} == alloc
  {
  }

  lemma Smaller(a: set<nat>, b: set<nat>, n: nat)
    requires n in b && a <= b - {n}
    ensures |a| < |b|
  {
    assert b == a + (b - a) && n in b - a;
  }
}
