/** The on-disk block trees of kernel/fs.c as values: the free bitmap, the
    direct, indirect and double-indirect references of every inode, and who
    owns each block. */
module BlockTree {
  import opened Common

  const FSSIZE: nat := 2000
  const NINODES: nat := 200
  const NDIRECT: nat := 11
  const NINDIRECT: nat := 256
  const NDINDIRECT: nat := 65536
  const MAXFILE: nat := NDIRECT + NINDIRECT + NDINDIRECT
  const NMETA: nat := 47           // boot, super, log, inode and bitmap blocks
  const INODESTART: nat := 33
  const BMAPSTART: nat := 46
  const IPB: nat := 16

  type Bno = x: nat | x < FSSIZE witness 0
  type Inum = x: nat | x < NINODES witness 0
  type DIdx = x: nat | x < NDIRECT witness 0
  type Idx = x: nat | x < NINDIRECT witness 0

  /** An indirect block, as the block numbers it holds. */
  type Ptrs = a: seq<Bno> | |a| == NINDIRECT witness seq(NINDIRECT, _ => 0)

  /** A data block. */
  type Bytes = b: seq<nat> | |b| == BSIZE witness seq(BSIZE, _ => 0)

  datatype Inode = Inode(addrs: seq<Bno>, size: nat)

  /** A place that may refer to a block. */
  datatype Place =
    | Direct(n: Inum, d: DIdx)
    | Ind(n: Inum)
    | IndEntry(n: Inum, j: Idx)
    | DInd(n: Inum)
    | Mid(n: Inum, i: Idx)
    | Leaf(n: Inum, i: Idx, j: Idx)

  /** A block's bytes are kept in its two readings, as pointers and as data;
      every block is in use under one of them only. */
  datatype Fs = Fs(
    bits: seq<bool>,              // the free bitmap
    inodes: seq<Inode>,           // the in-memory inodes
    dinodes: seq<Inode>,          // what iupdate last wrote
    ptr: seq<Ptrs>,
    data: seq<Bytes>,
    logged: set<nat>,             // blocks passed to log_write in this transaction
    owner: map<Bno, Place>)       // the place that refers to each block in use

  function ZeroPtrs(): Ptrs {
    seq(NINDIRECT, _ => 0)
  }

  function ZeroBytes(): Bytes {
    seq(BSIZE, _ => 0)
  }

  ghost predicate Sized(s: Fs) {
    && |s.bits| == FSSIZE && |s.ptr| == FSSIZE && |s.data| == FSSIZE
    && |s.inodes| == NINODES && |s.dinodes| == NINODES
    && forall n: Inum :: |s.inodes[n].addrs| == NDIRECT + 2
  }

  /** The block a place refers to, 0 if none. */
  function Ref(s: Fs, p: Place): Bno
    requires Sized(s)
  {
    match p
    case Direct(n, d) => s.inodes[n].addrs[d]
    case Ind(n) => s.inodes[n].addrs[NDIRECT]
    case IndEntry(n, j) => Slot(s, s.inodes[n].addrs[NDIRECT], j)
    case DInd(n) => s.inodes[n].addrs[NDIRECT + 1]
    case Mid(n, i) => Slot(s, s.inodes[n].addrs[NDIRECT + 1], i)
    case Leaf(n, i, j) => Slot(s, Slot(s, s.inodes[n].addrs[NDIRECT + 1], i), j)
  }

  /** Entry i of indirect block b; a missing block has no entries. */
  function Slot(s: Fs, b: Bno, i: Idx): Bno
    requires |s.ptr| == FSSIZE
  {
    if b == 0 then 0 else s.ptr[b][i]
  }

  /** Every reference is the only one to its block, and is never to metadata. */
  ghost predicate Owned(s: Fs)
    requires Sized(s)
  {
    && (forall p: Place :: Ref(s, p) != 0 ==> Ref(s, p) in s.owner && s.owner[Ref(s, p)] == p)
    && (forall b :: b in s.owner ==> b >= NMETA && Ref(s, s.owner[b]) == b)
  }

  /** A bit is set exactly for metadata and for blocks some place refers to. */
  ghost predicate BitsExact(bits: seq<bool>, owner: map<Bno, Place>)
    requires |bits| == FSSIZE
  {
    forall b: Bno :: bits[b] <==> b < NMETA || b in owner
  }

  ghost predicate Inv(s: Fs) {
    Sized(s) && Owned(s) && BitsExact(s.bits, s.owner) && s.ptr[0] == ZeroPtrs()
  }

  /** The place of a file's bn-th block. */
  function PlaceOf(n: Inum, bn: nat): Place
    requires bn < MAXFILE
  {
    if bn < NDIRECT then Direct(n, bn)
    else if bn < NDIRECT + NINDIRECT then IndEntry(n, bn - NDIRECT)
    else Leaf(n, (bn - NDIRECT - NINDIRECT) / NINDIRECT, (bn - NDIRECT - NINDIRECT) % NINDIRECT)
  }

  /** A file's bn-th block, 0 for a hole. */
  function BlockAt(s: Fs, n: Inum, bn: nat): Bno
    requires Sized(s) && bn < MAXFILE
  {
    Ref(s, PlaceOf(n, bn))
  }

  /** bmap is injective: two different blocks of files never share a disk
      block, and a file's data is in none of its own indirect blocks. */
  lemma BlocksDistinct(s: Fs, n: Inum, bn: nat, m: Inum, bm: nat)
    requires Inv(s) && bn < MAXFILE && bm < MAXFILE && BlockAt(s, n, bn) != 0
    ensures BlockAt(s, n, bn) == BlockAt(s, m, bm) ==> n == m && bn == bm
    ensures forall p: Place :: Ref(s, p) == BlockAt(s, n, bn) ==> p == PlaceOf(n, bn)
    ensures s.bits[BlockAt(s, n, bn)] && BlockAt(s, n, bn) >= NMETA
  {
  }

  // ---- taking a block and linking it ----

  /** balloc of block b: its bit is set and it is zeroed. */
  function Taken(s: Fs, b: Bno): Fs
    requires Sized(s)
  {
    s.(bits := s.bits[b := true], ptr := s.ptr[b := ZeroPtrs()], data := s.data[b := ZeroBytes()],
       logged := s.logged + {BMAPSTART, b})
  }

  function Parent(p: Place): Place
    requires !p.Direct? && !p.Ind? && !p.DInd?
  {
    match p
    case IndEntry(n, _) => Ind(n)
    case Mid(n, _) => DInd(n)
    case Leaf(n, i, _) => Mid(n, i)
  }

  predicate TopLevel(p: Place) {
    p.Direct? || p.Ind? || p.DInd?
  }

  function EntryOf(p: Place): Idx
    requires !TopLevel(p)
  {
    match p
    case IndEntry(_, j) => j
    case Mid(_, i) => i
    case Leaf(_, _, j) => j
  }

  function AddrOf(p: Place): (i: nat)
    requires TopLevel(p)
    ensures i < NDIRECT + 2
  {
    match p
    case Direct(_, d) => d
    case Ind(_) => NDIRECT
    case DInd(_) => NDIRECT + 1
  }

  /** Block number b is stored at place p: in the inode, or in the indirect
      block above it, which is then logged. */
  function Linked(s: Fs, p: Place, b: Bno): Fs
    requires Sized(s)
  {
    if TopLevel(p) then
      s.(inodes := s.inodes[p.n := s.inodes[p.n].(addrs := s.inodes[p.n].addrs[AddrOf(p) := b])],
         owner := s.owner[b := p])
    else
      var x := Ref(s, Parent(p));
      s.(ptr := s.ptr[x := s.ptr[x][EntryOf(p) := b]], owner := s.owner[b := p], logged := s.logged + {x})
  }

  lemma TakenRefs(s: Fs, b: Bno)
    requires Inv(s) && !s.bits[b]
    ensures Sized(Taken(s, b)) && forall p: Place :: Ref(Taken(s, b), p) == Ref(s, p)
  {
    forall p: Place ensures Ref(Taken(s, b), p) == Ref(s, p) {
      assert b !in s.owner;
      match p
      case IndEntry(n, _) => assert Ref(s, Ind(n)) != b || b == 0;
      case Mid(n, _) => assert Ref(s, DInd(n)) != b || b == 0;
      case Leaf(n, i, _) => assert (Ref(s, DInd(n)) != b || b == 0) && (Ref(s, Mid(n, i)) != b || b == 0);
      case _ =>
    }
  }

  ghost predicate ParentPresent(s: Fs, p: Place)
    requires Sized(s)
  {
    TopLevel(p) || Ref(s, Parent(p)) != 0
  }

  /** Storing a fresh, zeroed block changes the reference at p and no other:
      the places below p had no block and still have none. */
  lemma LinkedRefs(s: Fs, p: Place, b: Bno)
    requires Sized(s) && Owned(s) && Ref(s, p) == 0 && ParentPresent(s, p)
    requires b != 0 && b !in s.owner && s.ptr[b] == ZeroPtrs()
    ensures Sized(Linked(s, p, b))
    ensures forall q: Place :: Ref(Linked(s, p, b), q) == if q == p then b else Ref(s, q)
  {
    forall q: Place ensures Ref(Linked(s, p, b), q) == if q == p then b else Ref(s, q) {
      LinkedRef(s, p, b, q);
    }
  }

  lemma LinkedRef(s: Fs, p: Place, b: Bno, q: Place)
    requires Sized(s) && Owned(s) && Ref(s, p) == 0 && ParentPresent(s, p)
    requires b != 0 && b !in s.owner && s.ptr[b] == ZeroPtrs()
    ensures Sized(Linked(s, p, b))
    ensures Ref(Linked(s, p, b), q) == if q == p then b else Ref(s, q)
  {
    hide Owned;
    if TopLevel(p) {
      LinkedTop(s, p, b, q);
    } else {
      NotOwned(s, Parent(p), b);
      OnlyParent(s, Parent(p), Ind(q.n));
      OnlyParent(s, Parent(p), DInd(q.n));
      if q.Leaf? {
        OnlyParent(s, Parent(p), Mid(q.n, q.i));
      }
      LinkedEntry(s, p, b, q);
    }
  }

  lemma LinkedTop(s: Fs, p: Place, b: Bno, q: Place)
    requires Sized(s) && Ref(s, p) == 0 && TopLevel(p) && b != 0 && s.ptr[b] == ZeroPtrs()
    ensures Sized(Linked(s, p, b))
    ensures Ref(Linked(s, p, b), q) == if q == p then b else Ref(s, q)
  {
  }

  lemma LinkedEntry(s: Fs, p: Place, b: Bno, q: Place)
    requires Sized(s) && Ref(s, p) == 0 && !TopLevel(p) && b != 0 && s.ptr[b] == ZeroPtrs()
    requires Ref(s, Parent(p)) != 0 && Ref(s, Parent(p)) != b
    requires Ref(s, Parent(p)) == Ref(s, Ind(q.n)) ==> Parent(p) == Ind(q.n)
    requires Ref(s, Parent(p)) == Ref(s, DInd(q.n)) ==> Parent(p) == DInd(q.n)
    requires q.Leaf? && Ref(s, Parent(p)) == Ref(s, Mid(q.n, q.i)) ==> Parent(p) == Mid(q.n, q.i)
    ensures Sized(Linked(s, p, b))
    ensures Ref(Linked(s, p, b), q) == if q == p then b else Ref(s, q)
  {
  }

  lemma NotOwned(s: Fs, p: Place, b: Bno)
    requires Sized(s) && Owned(s) && Ref(s, p) != 0 && b !in s.owner
    ensures Ref(s, p) != b
  {
  }

  lemma OnlyParent(s: Fs, p: Place, q: Place)
    requires Sized(s) && Owned(s) && Ref(s, p) != 0
    ensures Ref(s, p) == Ref(s, q) ==> p == q
  {
  }

  /** Allocating a block and linking it at an empty place keeps the invariant
      and every other reference. */
  lemma TakenLinked(s: Fs, p: Place, b: Bno)
    requires Inv(s) && Ref(s, p) == 0 && ParentPresent(s, p) && !s.bits[b]
    ensures Sized(Taken(s, b))
    ensures Inv(Linked(Taken(s, b), p, b))
    ensures forall q: Place :: Ref(Linked(Taken(s, b), p, b), q) == if q == p then b else Ref(s, q)
  {
    hide Owned, BitsExact, Ref, Linked;
    TakenRefs(s, b);
    TakenOwned(s, b);
    var t := Taken(s, b);
    BitClear(s, b);
    LinkedRefs(t, p, b);
    LinkedOwned(t, p, b);
    LinkedBits(s.bits, s.owner, p, b);
    LinkedFrame(t, p, b);
  }

  lemma BitClear(s: Fs, b: Bno)
    requires Inv(s) && !s.bits[b]
    ensures b !in s.owner && b >= NMETA
  {
  }

  lemma TakenOwned(s: Fs, b: Bno)
    requires Sized(s) && Owned(s)
    requires forall p: Place :: Ref(Taken(s, b), p) == Ref(s, p)
    ensures Owned(Taken(s, b))
  {
  }

  lemma LinkedOwned(s: Fs, p: Place, b: Bno)
    requires Sized(s) && Owned(s) && Sized(Linked(s, p, b))
    requires b >= NMETA && b !in s.owner && Ref(s, p) == 0
    requires forall q: Place :: Ref(Linked(s, p, b), q) == if q == p then b else Ref(s, q)
    ensures Owned(Linked(s, p, b))
  {
  }

  lemma LinkedBits(bits: seq<bool>, owner: map<Bno, Place>, p: Place, b: Bno)
    requires |bits| == FSSIZE && BitsExact(bits, owner)
    ensures BitsExact(bits[b := true], owner[b := p])
  {
  }

  lemma LinkedFrame(s: Fs, p: Place, b: Bno)
    requires Sized(s) && ParentPresent(s, p)
    ensures Linked(s, p, b).bits == s.bits && Linked(s, p, b).ptr[0] == s.ptr[0]
    ensures Linked(s, p, b).owner == s.owner[b := p]
    ensures Linked(s, p, b).data == s.data && Linked(s, p, b).dinodes == s.dinodes
  {
  }

  // ---- what a run of allocations may add ----

  /** The places bmap visits for a file's bn-th block. */
  function Path(n: Inum, bn: nat): set<Place>
    requires bn < MAXFILE
  {
    if bn < NDIRECT then {PlaceOf(n, bn)}
    else if bn < NDIRECT + NINDIRECT then {Ind(n), PlaceOf(n, bn)}
    else {DInd(n), Mid(n, (bn - NDIRECT - NINDIRECT) / NINDIRECT), PlaceOf(n, bn)}
  }

  /** Blocks were only added, at places in ps, and are zeroed; all others keep
      their place and their data. */
  ghost predicate Grown(s0: Fs, s1: Fs, ps: set<Place>) {
    && Sized(s0) && Sized(s1)
    && (forall b: Bno :: b in s0.owner ==>
          b in s1.owner && s1.owner[b] == s0.owner[b] && s1.data[b] == s0.data[b])
    && (forall b: Bno :: b in s1.owner && b !in s0.owner ==> s1.owner[b] in ps && s1.data[b] == ZeroBytes())
    && (forall n: Inum :: s1.inodes[n].size == s0.inodes[n].size)
    && s1.dinodes == s0.dinodes
  }

  /** Everything logged is the bitmap block, file n's inode block, or a block
      at one of the places ps. */
  ghost predicate LoggedAt(s: Fs, n: Inum, ps: set<Place>) {
    forall x :: x in s.logged ==>
      x == BMAPSTART || x == InodeBlock(n) || (x in s.owner && s.owner[x] in ps)
  }

  function InodeBlock(n: Inum): nat {
    n / IPB + INODESTART
  }

  lemma GrownRef(s0: Fs, s1: Fs, ps: set<Place>, q: Place)
    requires Inv(s0) && Inv(s1) && Grown(s0, s1, ps)
    ensures Ref(s0, q) != 0 || q !in ps ==> Ref(s1, q) == Ref(s0, q)
    ensures Ref(s0, q) == 0 && Ref(s1, q) != 0 ==> s1.data[Ref(s1, q)] == ZeroBytes()
  {
  }

  lemma GrownOnce(s0: Fs, s: Fs, ps: set<Place>, p: Place, b: Bno)
    requires Inv(s) && Grown(s0, s, ps) && !s.bits[b] && p in ps
    requires ParentPresent(s, p) && Ref(s, p) == 0
    ensures Sized(Taken(s, b)) && Grown(s0, Linked(Taken(s, b), p, b), ps)
  {
    hide Owned, Ref;
    BitClear(s, b);
    var t := Taken(s, b);
    TakenRefs(s, b);
    TakenLinked(s, p, b);
    LinkedFrame(t, p, b);
    LinkedSizes(t, p, b);
  }

  lemma LinkedSizes(s: Fs, p: Place, b: Bno)
    requires Sized(s)
    ensures Sized(Linked(s, p, b))
    ensures forall n: Inum :: Linked(s, p, b).inodes[n].size == s.inodes[n].size
  {
  }

  lemma LoggedOnce(s: Fs, n: Inum, ps: set<Place>, p: Place, b: Bno)
    requires Inv(s) && LoggedAt(s, n, ps) && !s.bits[b] && p in ps
    requires ParentPresent(s, p) && (TopLevel(p) || Parent(p) in ps)
    ensures Sized(Taken(s, b)) && LoggedAt(Linked(Taken(s, b), p, b), n, ps)
  {
    TakenRefs(s, b);
    if !TopLevel(p) {
      assert s.owner[Ref(s, Parent(p))] == Parent(p);
    }
  }

  // ---- freeing a file's whole tree ----

  /** How far itrunc has got: direct blocks below d, entries of the indirect
      block below e and that block itself, level-1 blocks below m with their
      entries, entries of level-1 block m below c, and the top block. */
  datatype Sweep = Sweep(d: nat, e: nat, ind: bool, m: nat, c: nat, dind: bool)

  predicate Swept(p: Place, n: Inum, w: Sweep) {
    p.n == n &&
    match p
    case Direct(_, d) => d < w.d
    case Ind(_) => w.ind
    case IndEntry(_, j) => j < w.e
    case DInd(_) => w.dind
    case Mid(_, i) => i < w.m
    case Leaf(_, i, j) => i < w.m || (i == w.m && j < w.c)
  }

  /** The bitmap when everything swept has been freed and nothing else. */
  ghost predicate SweptBits(owner: map<Bno, Place>, bits: seq<bool>, n: Inum, w: Sweep) {
    |bits| == FSSIZE &&
    forall b: Bno :: bits[b] <==> b < NMETA || (b in owner && !Swept(owner[b], n, w))
  }

  /** Place p is next to be swept: its block, if any, is still marked in use. */
  lemma SweepPlace(s: Fs, bits: seq<bool>, n: Inum, w: Sweep, w1: Sweep, p: Place)
    requires Sized(s) && Owned(s) && SweptBits(s.owner, bits, n, w) && !Swept(p, n, w)
    requires forall q: Place :: Swept(q, n, w1) <==> Swept(q, n, w) || q == p
    ensures Ref(s, p) == 0 ==> SweptBits(s.owner, bits, n, w1)
    ensures Ref(s, p) != 0 ==> bits[Ref(s, p)] && SweptBits(s.owner, bits[Ref(s, p) := false], n, w1)
  {
  }

  /** Places without a block need no freeing. */
  lemma SweepEmpty(s: Fs, bits: seq<bool>, n: Inum, w: Sweep, w1: Sweep)
    requires Sized(s) && Owned(s) && SweptBits(s.owner, bits, n, w)
    requires forall q: Place :: Swept(q, n, w1) <==> Swept(q, n, w) || (Swept(q, n, w1) && Ref(s, q) == 0)
    ensures SweptBits(s.owner, bits, n, w1)
  {
  }

  /** File n without its blocks. */
  function Emptied(s: Fs, n: Inum, bits: seq<bool>): Fs
    requires Sized(s)
  {
    s.(bits := bits, inodes := s.inodes[n := Inode(seq(NDIRECT + 2, _ => 0), 0)],
       owner := map b | b in s.owner && s.owner[b].n != n :: s.owner[b])
  }

  lemma EmptiedInv(s: Fs, n: Inum, bits: seq<bool>, w: Sweep)
    requires Inv(s) && SweptBits(s.owner, bits, n, w) && forall p: Place :: p.n == n ==> Swept(p, n, w)
    ensures Inv(Emptied(s, n, bits))
    ensures forall p: Place :: Ref(Emptied(s, n, bits), p) == if p.n == n then 0 else Ref(s, p)
    ensures forall b: Bno :: bits[b] <==> s.bits[b] && !(b in s.owner && s.owner[b].n == n)
  {
    EmptiedRefs(s, n, bits);
    hide Ref;
  }

  lemma EmptiedRefs(s: Fs, n: Inum, bits: seq<bool>)
    requires Sized(s) && |bits| == FSSIZE
    ensures Sized(Emptied(s, n, bits))
    ensures forall p: Place :: Ref(Emptied(s, n, bits), p) == if p.n == n then 0 else Ref(s, p)
  {
  }
}
