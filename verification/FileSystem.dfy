/** The block layer of files in kernel/fs.c as an object: balloc, bfree, bmap,
    itrunc, readi and writei, and the inode case of filewrite in kernel/file.c. */
module FileSystem {
  import opened Common
  import opened BlockTree
  import opened FileData
  import GroupCommit

  const DIRTIED: nat := 9                // the most blocks a write transaction dirties
  const BPB: nat := 8 * BSIZE

  ghost predicate Full(bits: seq<bool>) {
    |bits| == FSSIZE && forall b: Bno :: bits[b]
  }

  /** b was the lowest free block, and was taken and linked at p. */
  ghost predicate TookLowest(s0: Fs, s1: Fs, p: Place, b: Bno)
    requires Sized(s0)
  {
    && !s0.bits[b] && (forall x: Bno :: x < b ==> s0.bits[x])
    && Sized(Taken(s0, b)) && s1 == Linked(Taken(s0, b), p, b)
  }

  /** What holds between the blocks bmap adds: only places on the path gained
      a block, and only those places' blocks were logged. */
  ghost predicate Growing(s0: Fs, s: Fs, n: Inum, path: set<Place>, ps: set<Place>) {
    Inv(s) && Grown(s0, s, path) && (LoggedAt(s0, n, ps) ==> LoggedAt(s, n, ps))
  }

  lemma GrowingOnce(s0: Fs, s: Fs, s1: Fs, n: Inum, path: set<Place>, ps: set<Place>, p: Place, b: Bno)
    requires Growing(s0, s, n, path, ps) && path <= ps
    requires ParentPresent(s, p) && Ref(s, p) == 0 && p in path && (TopLevel(p) || Parent(p) in path)
    requires TookLowest(s, s1, p, b)
    ensures Growing(s0, s1, n, path, ps) && b != 0
    ensures forall q: Place :: Ref(s1, q) == if q == p then b else Ref(s, q)
  {
    hide Owned, Ref, Linked, Taken, Grown, LoggedAt, BitsExact;
    TakenLinked(s, p, b);
    GrownOnce(s0, s, path, p, b);
    if LoggedAt(s, n, ps) {
      LoggedOnce(s, n, ps, p, b);
    }
    BitClear(s, b);
  }

  lemma BitsMeta(s: Fs, b: Bno)
    requires Inv(s) && b < NMETA
    ensures s.bits[b]
  {
  }

  lemma GrownSame(s: Fs, path: set<Place>)
    requires Sized(s)
    ensures Grown(s, s, path)
  {
  }

  lemma FullTakesNone(s: Fs, s1: Fs, p: Place, b: Bno)
    requires Sized(s) && TookLowest(s, s1, p, b)
    ensures !Full(s.bits)
  {
  }

  const UINT_MAX: nat := 0x1_0000_0000

  /** The number of file blocks that len bytes from off on touch. */
  function Touched(off: nat, len: nat): nat {
    if len == 0 then 0 else (off + len - 1) / BSIZE - off / BSIZE + 1
  }

  function Min(a: nat, b: nat): nat {
    if a < b then a else b
  }

  /** A write has stored d at off; c file blocks were visited. */
  ghost predicate Writing(s0: Fs, s: Fs, n: Inum, off: nat, d: seq<nat>, ps: set<Place>, c: nat) {
    Wrote(s0, s, n, off, d) && off / BSIZE + c <= MAXFILE && LoggedAt(s, n, ps + Paths(n, off / BSIZE, c))
  }

  function ZeroedTo(a: seq<Bno>, k: nat): (r: seq<Bno>)
    requires |a| == NDIRECT + 2
    ensures |r| == |a|
  {
    seq(NDIRECT + 2, i requires 0 <= i < NDIRECT + 2 => if i < k then 0 else a[i])
  }

  /** itrunc has freed what w says of file n in s0, and zeroed k addresses. */
  ghost predicate Sweeping(s0: Fs, s: Fs, n: Inum, w: Sweep, k: nat) {
    && Inv(s0) && SweptBits(s0.owner, s.bits, n, w)
    && s == s0.(bits := s.bits, logged := s.logged,
                inodes := s0.inodes[n := s0.inodes[n].(addrs := ZeroedTo(s0.inodes[n].addrs, k))])
    && s0.logged <= s.logged <= s0.logged + {BMAPSTART}
  }

  lemma ZeroedStep(a: seq<Bno>, k: nat)
    requires |a| == NDIRECT + 2 && k < NDIRECT + 2
    ensures ZeroedTo(a, k)[k] == a[k] && ZeroedTo(a, k)[k := 0] == ZeroedTo(a, k + 1)
  {
  }

  lemma ZeroedSame(a: seq<Bno>, k: nat)
    requires |a| == NDIRECT + 2 && k < NDIRECT + 2 && a[k] == 0
    ensures ZeroedTo(a, k) == ZeroedTo(a, k + 1)
  {
  }

  lemma AllZeroed(a: seq<Bno>)
    requires |a| == NDIRECT + 2
    ensures ZeroedTo(a, NDIRECT + 2) == seq(NDIRECT + 2, _ => 0)
  {
  }

  lemma SweepingSized(s0: Fs, s: Fs, n: Inum, w: Sweep, k: nat)
    requires Sweeping(s0, s, n, w, k)
    ensures Sized(s)
  {
  }

  /** What iupdate and log_write change matters to no reference. */
  lemma SameTree(s: Fs, t: Fs)
    requires Inv(s) && t == s.(dinodes := t.dinodes, logged := t.logged) && |t.dinodes| == NINODES
    ensures Inv(t) && forall p: Place :: Ref(t, p) == Ref(s, p)
  {
    assert forall p: Place :: Ref(t, p) == Ref(s, p);
  }

  lemma SweepNothing(s: Fs, n: Inum)
    requires Inv(s)
    ensures Sweeping(s, s, n, Sweep(0, 0, false, 0, 0, false), 0)
  {
    assert ZeroedTo(s.inodes[n].addrs, 0) == s.inodes[n].addrs;
  }

  lemma WroteInv(s0: Fs, s: Fs, n: Inum, off: nat, d: seq<nat>)
    requires Wrote(s0, s, n, off, d)
    ensures Inv(s)
  {
  }

  lemma PathsGrow(s: Fs, n: Inum, lo: nat, c: nat, ps: set<Place>)
    requires lo + c < MAXFILE && LoggedAt(s, n, ps + Paths(n, lo, c))
    ensures LoggedAt(s, n, ps + Paths(n, lo, c + 1)) && Path(n, lo + c) <= ps + Paths(n, lo, c + 1)
  {
  }

  lemma StoredLogged(s: Fs, n: Inum, bn: nat, at: nat, d: seq<nat>, ps: set<Place>)
    requires Inv(s) && bn < MAXFILE && BlockAt(s, n, bn) != 0 && at + |d| <= BSIZE
    requires LoggedAt(s, n, ps) && Path(n, bn) <= ps
    ensures LoggedAt(Stored(s, BlockAt(s, n, bn), at, d), n, ps)
  {
  }

  lemma StoredIs(s: Fs, b: Bno, at: nat, d: seq<nat>)
    requires Sized(s) && at + |d| <= BSIZE
    ensures Stored(s, b, at, d) == s.(data := s.data[b := Patch(s.data[b], at, d)], logged := s.logged + {b as nat})
  {
  }

  lemma PathsNone(s: Fs, n: Inum, lo: nat, ps: set<Place>)
    requires LoggedAt(s, n, ps) && lo <= MAXFILE
    ensures LoggedAt(s, n, ps + Paths(n, lo, 0))
  {
  }

  lemma IupdateKeeps(s: Fs, t: Fs)
    requires FilesOk(s) && t == s.(dinodes := t.dinodes, logged := t.logged) && |t.dinodes| == NINODES
    ensures FilesOk(t) && forall k: Inum :: Content(t, k) == Content(s, k)
  {
    SameTree(s, t);
    hide Ref, Owned, BitsExact;
    assert forall k: Inum, bn: nat :: bn < MAXFILE ==> BlockAt(t, k, bn) == BlockAt(s, k, bn);
    assert forall k: Inum, o: nat :: o < MAXSIZE ==> Byte(t, k, o) == Byte(s, k, o);
  }

  lemma IupdateLogged(s: Fs, t: Fs, n: Inum, ps: set<Place>)
    requires LoggedAt(s, n, ps) && t.owner == s.owner && t.logged == s.logged + {InodeBlock(n)}
    ensures LoggedAt(t, n, ps)
  {
  }

  /** One block's share of a file's content. */
  lemma ContentPiece(s: Fs, n: Inum, off: nat, tot: nat, m: nat)
    requires Mappable(s) && off + tot + m <= s.inodes[n].size && m > 0 && (off + tot) % BSIZE + m <= BSIZE
    requires BlockAt(s, n, (off + tot) / BSIZE) != 0
    ensures Content(s, n)[off..off + tot + m] == Content(s, n)[off..off + tot] +
              s.data[BlockAt(s, n, (off + tot) / BSIZE)][(off + tot) % BSIZE..(off + tot) % BSIZE + m]
  {
    hide Content, BlockAt;
    var all, c, at := Content(s, n), off + tot, (off + tot) % BSIZE;
    var piece := s.data[BlockAt(s, n, c / BSIZE)][at..at + m];
    forall o | c <= o < c + m ensures all[o] == piece[o - c] {
      PieceByte(s, n, c, m, o);
    }
    assert all[c..c + m] == piece;
    assert all[off..c + m] == all[off..c] + all[c..c + m];
  }

  lemma SameBlock(c: nat, m: nat, o: nat)
    requires c % BSIZE + m <= BSIZE && c <= o < c + m
    ensures o / BSIZE == c / BSIZE && o % BSIZE == c % BSIZE + (o - c)
  {
  }

  lemma PieceByte(s: Fs, n: Inum, c: nat, m: nat, o: nat)
    requires Mappable(s) && o < s.inodes[n].size && c % BSIZE + m <= BSIZE && c <= o < c + m
    requires BlockAt(s, n, c / BSIZE) != 0
    ensures Content(s, n)[o] == s.data[BlockAt(s, n, c / BSIZE)][c % BSIZE + (o - c)]
  {
    hide BlockAt;
    SameBlock(c, m, o);
  }

  /** File n has all of its c blocks from lo on. */
  ghost predicate NoHole(s: Fs, n: Inum, lo: nat, c: nat)
    requires Sized(s) && lo + c <= MAXFILE
  {
    forall bn: nat :: lo <= bn < lo + c ==> BlockAt(s, n, bn) != 0
  }

  /** A read has mapped c blocks of file n, from lo on: it took blocks exactly if
      one of them was missing and the disk was not full, and else left everything
      as it was. */
  ghost predicate Reading(s0: Fs, s: Fs, n: Inum, lo: nat, c: nat) {
    && Inv(s0) && Inv(s) && lo + c <= MAXFILE && Grown(s0, s, Paths(n, lo, c))
    && if Full(s0.bits) || NoHole(s0, n, lo, c) then s == s0 else s.bits != s0.bits
  }

  lemma BitsGrow(s0: Fs, s: Fs, ps: set<Place>)
    requires Inv(s0) && Inv(s) && Grown(s0, s, ps)
    ensures forall b: Bno :: s0.bits[b] ==> s.bits[b]
  {
  }

  /** A file block was missing and is there, or the disk has become full. */
  lemma TookSome(s0: Fs, s: Fs, n: Inum, bn: nat)
    requires Inv(s0) && Inv(s) && bn < MAXFILE && Grown(s0, s, Path(n, bn))
    requires BlockAt(s0, n, bn) == 0 && !Full(s0.bits) && (BlockAt(s, n, bn) == 0 ==> Full(s.bits))
    ensures s.bits != s0.bits
  {
    hide Ref;
    var b := BlockAt(s, n, bn);
    if b != 0 {
      assert b in s.owner && b !in s0.owner;
    }
  }

  lemma ReadMore(s0: Fs, s: Fs, s1: Fs, n: Inum, lo: nat, c: nat)
    requires Reading(s0, s, n, lo, c) && lo + c < MAXFILE && Inv(s1) && Grown(s, s1, Path(n, lo + c))
    requires if BlockAt(s, n, lo + c) != 0 || Full(s.bits) then s1 == s else s1.bits != s.bits
    ensures Reading(s0, s1, n, lo, c + 1)
  {
    hide Owned, BitsExact, Ref, Grown, Path, Full, BlockAt;
    GrownJoin(s0, s, s1, Paths(n, lo, c), Path(n, lo + c));
    BitsGrow(s0, s, Paths(n, lo, c));
    BitsGrow(s, s1, Path(n, lo + c));
    assert NoHole(s0, n, lo, c + 1) <==> NoHole(s0, n, lo, c) && BlockAt(s0, n, lo + c) != 0;
  }

  lemma ReadNone(s: Fs, n: Inum, lo: nat)
    requires Inv(s) && lo <= MAXFILE
    ensures Reading(s, s, n, lo, 0)
  {
  }

  /** Reading changes no file's content. */
  lemma ReadSame(s0: Fs, s: Fs, n: Inum, lo: nat, c: nat)
    requires Reading(s0, s, n, lo, c) && Mappable(s0)
    ensures Mappable(s) && forall k: Inum :: s.inodes[k].size == s0.inodes[k].size && Content(s, k) == Content(s0, k)
  {
    hide Owned, BitsExact, Ref, Paths, Full, Content, NoHole;
    forall k: Inum ensures s.inodes[k].size == s0.inodes[k].size && Content(s, k) == Content(s0, k) {
      GrownContent(s0, s, Paths(n, lo, c), k);
    }
  }

  /** readi's loop has copied got out of the avail bytes wanted from off on, and
      has stopped for want of a block or, if bad, of room. */
  ghost predicate Copying(s0: Fs, s: Fs, n: Inum, off: nat, avail: nat, room: nat, got: seq<nat>, c: nat, stop: bool,
                          bad: bool)
  {
    && Mappable(s0) && off + avail <= s0.inodes[n].size && Reading(s0, s, n, off / BSIZE, c)
    && |got| <= avail && |got| <= room && got == Content(s0, n)[off..off + |got|]
    && c == Touched(off, |got|) + (if stop then 1 else 0)
    && (|got| < avail ==> (off + |got|) / BSIZE == off / BSIZE + Touched(off, |got|))
    && (stop ==> |got| < avail &&
                 if bad then room < avail else Full(s.bits) && BlockAt(s, n, (off + |got|) / BSIZE) == 0)
  }

  lemma CopyNone(s: Fs, n: Inum, off: nat, avail: nat, room: nat)
    requires Inv(s) && Mappable(s) && off + avail <= s.inodes[n].size
    ensures Copying(s, s, n, off, avail, room, [], 0, false, false)
  {
    ReadNone(s, n, off / BSIZE);
  }

  lemma CopyMore(off: nat, avail: nat, tot: nat, m: nat)
    requires tot < avail && m == Min(avail - tot, BSIZE - (off + tot) % BSIZE)
    requires (off + tot) / BSIZE == off / BSIZE + Touched(off, tot)
    ensures Touched(off, tot + m) == Touched(off, tot) + 1
    ensures tot + m < avail ==> (off + tot + m) / BSIZE == off / BSIZE + Touched(off, tot + m)
  {
  }

  /** What the loop leaves; a file without holes is read with nothing changed. */
  lemma CopyDone(s0: Fs, s: Fs, n: Inum, off: nat, avail: nat, room: nat, got: seq<nat>, c: nat, stop: bool, bad: bool)
    requires Copying(s0, s, n, off, avail, room, got, c, stop, bad) && (stop || |got| >= avail)
    ensures Reading(s0, s, n, off / BSIZE, c) && c == Touched(off, |got|) + (if |got| < avail then 1 else 0)
    ensures |got| <= avail && |got| <= room && got == Content(s0, n)[off..off + |got|]
    ensures stop && bad ==> room < avail
    ensures (!stop || !bad) && |got| < avail ==> Full(s.bits) && BlockAt(s, n, (off + |got|) / BSIZE) == 0
    ensures FilesOk(s0) ==> s == s0 && (stop ==> bad)
  {
    hide Owned, BitsExact, Ref, Grown, Paths, Full, BlockAt;
    if FilesOk(s0) {
      assert NoHole(s0, n, off / BSIZE, c);
    }
  }

  /** From s0 to s, the first k bytes of src were written to file n at off. */
  ghost predicate Spread(s0: Fs, s: Fs, n: Inum, off: nat, src: seq<nat>, k: nat) {
    && FilesOk(s0) && FilesOk(s) && k <= |src|
    && (if off <= s0.inodes[n].size then Content(s, n) == Spliced(Content(s0, n), off, src[..k])
        else k == 0 && Content(s, n) == Content(s0, n))
    && forall j: Inum :: j != n ==> Content(s, j) == Content(s0, j)
  }

  lemma SpreadNone(s: Fs, n: Inum, off: nat, src: seq<nat>)
    requires FilesOk(s)
    ensures Spread(s, s, n, off, src, 0)
  {
  }

  lemma LoggedNone(s: Fs, n: Inum)
    requires s.logged == {}
    ensures LoggedAt(s, n, {})
  {
  }

  lemma SpliceSize(c: seq<nat>, off: nat, d: seq<nat>)
    ensures off <= |c| ==> |Spliced(c, off, d)| == if off + |d| < |c| then |c| else off + |d|
  {
  }

  lemma SpliceTwice(c: seq<nat>, off: nat, d: seq<nat>, e: seq<nat>)
    requires off <= |c| && off + |d| <= |Spliced(c, off, d)|
    ensures Spliced(Spliced(c, off, d), off + |d|, e) == Spliced(c, off, d + e)
  {
  }

  lemma ThreeBlocks(s: Fs, n: Inum, off: nat, len: nat, c: nat)
    requires Inv(s) && len <= 3 * BSIZE && c <= Touched(off, len) && off / BSIZE + c <= MAXFILE
    requires LoggedAt(s, n, {} + Paths(n, off / BSIZE, c))
    ensures |s.logged| <= DIRTIED
  {
    hide Owned, BitsExact, Ref, Paths, LoggedAt;
    assert {} + Paths(n, off / BSIZE, c) == Paths(n, off / BSIZE, c);
    FourBlocks(n, off / BSIZE, c);
    LoggedBound(s, n, Paths(n, off / BSIZE, c));
  }

  /** The transactions of any number of filewrite calls, run as operations of
      the log in any interleaving, each logging only blocks it dirties: none
      meets a panic of the log, and every commit leaves a buffer that the log
      does not pin. */
  lemma WritesFitLog(dirtied: map<nat, set<nat>>, acts: seq<GroupCommit.Action>)
    requires forall id :: id in dirtied ==> |dirtied[id]| <= DIRTIED
    ensures match GroupCommit.ExecWithin(dirtied, GroupCommit.Init(), acts)
      case Next(s) => |s.lh| < NBUF
      case Panic(_) => false
      case Disabled => true
  {
    GroupCommit.FewBlocksSafe(DIRTIED, dirtied, acts);
  }

  /** Emptying file n leaves every other file's content alone. */
  lemma TruncContent(s: Fs, t: Fs, n: Inum)
    requires FilesOk(s) && Inv(t) && t.data == s.data
    requires t.inodes == s.inodes[n := Inode(seq(NDIRECT + 2, _ => 0), 0)]
    requires forall p: Place :: Ref(t, p) == if p.n == n then 0 else Ref(s, p)
    ensures FilesOk(t) && Content(t, n) == []
    ensures forall k: Inum :: k != n ==> Content(t, k) == Content(s, k)
  {
    hide Ref, Owned, BitsExact;
    assert forall k: Inum, bn: nat :: k != n && bn < MAXFILE ==> BlockAt(t, k, bn) == BlockAt(s, k, bn);
    assert forall k: Inum, o: nat :: k != n && o < MAXSIZE ==> Byte(t, k, o) == Byte(s, k, o);
  }

  class FileSystem {
    var s: Fs

    /** A disk with no files: the metadata blocks are in use, and no other. */
    constructor ()
      ensures FilesOk(s) && s.logged == {} && forall n: Inum :: Content(s, n) == []
      ensures forall b: Bno :: s.bits[b] <==> b < NMETA
    {
      s := Fs(seq(FSSIZE, b => b < NMETA), seq(NINODES, _ => Inode(seq(NDIRECT + 2, _ => 0), 0)),
              seq(NINODES, _ => Inode(seq(NDIRECT + 2, _ => 0), 0)), seq(FSSIZE, _ => ZeroPtrs()),
              seq(FSSIZE, _ => ZeroBytes()), {}, map[]);
    }

    method Bzero(b: Bno)
      requires Sized(s)
      modifies this
      ensures s == old(s).(ptr := old(s).ptr[b := ZeroPtrs()], data := old(s).data[b := ZeroBytes()],
                           logged := old(s).logged + {b as nat})
    {
      s := s.(ptr := s.ptr[b := ZeroPtrs()], data := s.data[b := ZeroBytes()], logged := s.logged + {b});
    }

    /** Takes the lowest free block, zeroed; 0 exactly when there is none. */
    method Balloc() returns (r: Bno)
      requires Inv(s)
      modifies this
      ensures r == 0 <==> Full(old(s).bits)
      ensures r == 0 ==> s == old(s)
      ensures r != 0 ==> !old(s).bits[r] && forall x: Bno :: x < r ==> old(s).bits[x]
      ensures r != 0 ==> s == Taken(old(s), r)
    {
      hide Owned, BitsExact, ZeroPtrs, ZeroBytes;
      BitsMeta(s, 0);
      var b := 0;
      while b < FSSIZE
        invariant s == old(s) && forall x: Bno :: x < b ==> s.bits[x]
      {
        var bi := 0;
        while bi < BPB && b + bi < FSSIZE
          invariant s == old(s) && forall x: Bno :: x < b + bi ==> s.bits[x]
        {
          if !s.bits[b + bi] {
            s := s.(bits := s.bits[b + bi := true], logged := s.logged + {b / BPB + BMAPSTART});
            Bzero(b + bi);
            return b + bi;
          }
          bi := bi + 1;
        }
        b := b + BPB;
      }
      r := 0;
    }

    /** Frees block b; panics exactly when it is already free. */
    method Bfree(b: Bno) returns (panicked: bool)
      requires Sized(s)
      modifies this
      ensures panicked <==> !old(s).bits[b]
      ensures panicked ==> s == old(s)
      ensures !panicked ==> s == old(s).(bits := old(s).bits[b := false], logged := old(s).logged + {BMAPSTART})
    {
      if !s.bits[b] {
        return true;
      }
      s := s.(bits := s.bits[b := false], logged := s.logged + {b / BPB + BMAPSTART});
      return false;
    }

    /** Allocates a block into one of the inode's own addresses. */
    method AllocAddr(n: Inum, i: nat, p: Place) returns (addr: Bno)
      requires Inv(s) && TopLevel(p) && p.n == n && AddrOf(p) == i && Ref(s, p) == 0
      modifies this
      ensures addr == 0 ==> s == old(s) && Full(s.bits)
      ensures addr != 0 ==> TookLowest(old(s), s, p, addr)
    {
      addr := Balloc();
      if addr != 0 {
        s := s.(inodes := s.inodes[n := s.inodes[n].(addrs := s.inodes[n].addrs[i := addr])],
                owner := s.owner[addr := p]);
      }
    }

    /** Allocates a block into entry i of indirect block x. When the disk is
        full, x may be block 0, and nothing is written. */
    method AllocEntry(x: Bno, i: Idx, p: Place) returns (addr: Bno)
      requires Inv(s) && !TopLevel(p)
      requires Full(s.bits) || (x == Ref(s, Parent(p)) && i == EntryOf(p) && Ref(s, p) == 0 && x != 0)
      modifies this
      ensures addr == 0 ==> s == old(s) && Full(s.bits)
      ensures addr != 0 ==> TookLowest(old(s), s, p, addr)
    {
      addr := Balloc();
      if addr != 0 {
        TakenRefs(old(s), addr);
        s := s.(ptr := s.ptr[x := s.ptr[x][i := addr]], owner := s.owner[addr := p], logged := s.logged + {x});
      }
    }

    /** The disk block of file block bn, allocating what is missing on the way;
        0 exactly when there was none and the disk is full. A block that was
        there is returned with nothing changed. Its number is written down among
        the inode's first addresses, in the indirect block that the next one
        names, or two levels below the block that the last one names. */
    method Bmap(n: Inum, bn: nat, ghost ps: set<Place>) returns (addr: Bno, panicked: bool)
      requires Inv(s)
      requires bn < MAXFILE ==> Path(n, bn) <= ps
      modifies this
      ensures panicked <==> bn >= MAXFILE
      ensures panicked ==> s == old(s)
      ensures !panicked ==> Growing(old(s), s, n, Path(n, bn), ps) && addr == BlockAt(s, n, bn)
      ensures bn < NDIRECT ==> addr == s.inodes[n].addrs[bn]
      ensures NDIRECT <= bn < NDIRECT + NINDIRECT ==>
                var x := s.inodes[n].addrs[NDIRECT];
                addr == if x == 0 then 0 else s.ptr[x][bn - NDIRECT]
      ensures NDIRECT + NINDIRECT <= bn < MAXFILE ==>
                var k, x := bn - NDIRECT - NINDIRECT, s.inodes[n].addrs[NDIRECT + 1];
                var y := if x == 0 then 0 else s.ptr[x][k / NINDIRECT];
                addr == if y == 0 then 0 else s.ptr[y][k % NINDIRECT]
      ensures !panicked ==>
                if BlockAt(old(s), n, bn) != 0 || Full(old(s).bits) then s == old(s) else s.bits != old(s).bits
      ensures !panicked && addr == 0 ==> Full(s.bits)
    {
      hide Owned, TookLowest, Grown, LoggedAt, BitsExact, Full;
      addr := 0;
      if bn >= MAXFILE {
        return 0, true;
      }
      panicked := false;
      ghost var path := Path(n, bn);
      GrownSame(s, path);
      if bn < NDIRECT {
        addr := s.inodes[n].addrs[bn];
        if addr == 0 {
          addr := AllocAddr(n, bn, Direct(n, bn));
          if addr != 0 {
            FullTakesNone(old(s), s, Direct(n, bn), addr);
            GrowingOnce(old(s), old(s), s, n, path, ps, Direct(n, bn), addr);
          }
        }
      } else if bn < NDIRECT + NINDIRECT {
        addr := BmapIndirect(n, bn - NDIRECT, path, ps);
      } else {
        addr := BmapDouble(n, bn - NDIRECT - NINDIRECT, path, ps);
      }
      if BlockAt(old(s), n, bn) == 0 && !Full(old(s).bits) {
        TookSome(old(s), s, n, bn);
      }
    }

    /** bmap's indirect case. */
    method BmapIndirect(n: Inum, k: Idx, ghost path: set<Place>, ghost ps: set<Place>) returns (addr: Bno)
      requires Growing(s, s, n, path, ps) && path == {Ind(n), IndEntry(n, k)} && path <= ps
      modifies this
      ensures Growing(old(s), s, n, path, ps) && addr == Ref(s, IndEntry(n, k))
      ensures Ref(old(s), IndEntry(n, k)) != 0 || Full(old(s).bits) ==> s == old(s)
      ensures addr == 0 ==> Full(s.bits)
    {
      hide Owned, TookLowest, Grown, LoggedAt, BitsExact, Full;
      addr := s.inodes[n].addrs[NDIRECT];
      if addr == 0 {
        addr := AllocAddr(n, NDIRECT, Ind(n));
        if addr == 0 {
          return;
        }
        FullTakesNone(old(s), s, Ind(n), addr);
        GrowingOnce(old(s), old(s), s, n, path, ps, Ind(n), addr);
      }
      var x := addr;
      addr := s.ptr[x][k];
      if addr == 0 {
        ghost var s1 := s;
        addr := AllocEntry(x, k, IndEntry(n, k));
        if addr != 0 {
          FullTakesNone(s1, s, IndEntry(n, k), addr);
          GrowingOnce(old(s), s1, s, n, path, ps, IndEntry(n, k), addr);
        }
      }
    }

    /** bmap's double-indirect case. A level-1 block that cannot be allocated
        sends the last step to block 0, which is all zero. */
    method BmapDouble(n: Inum, k: nat, ghost path: set<Place>, ghost ps: set<Place>) returns (addr: Bno)
      requires k < NDINDIRECT && path <= ps
      requires path == {DInd(n), Mid(n, k / NINDIRECT), Leaf(n, k / NINDIRECT, k % NINDIRECT)}
      requires Growing(s, s, n, path, ps)
      modifies this
      ensures Growing(old(s), s, n, path, ps) && addr == Ref(s, Leaf(n, k / NINDIRECT, k % NINDIRECT))
      ensures Ref(old(s), Leaf(n, k / NINDIRECT, k % NINDIRECT)) != 0 || Full(old(s).bits) ==> s == old(s)
      ensures addr == 0 ==> Full(s.bits)
    {
      hide Owned, TookLowest, Grown, LoggedAt, BitsExact, Full;
      addr := s.inodes[n].addrs[NDIRECT + 1];
      if addr == 0 {
        addr := AllocAddr(n, NDIRECT + 1, DInd(n));
        if addr == 0 {
          return;
        }
        FullTakesNone(old(s), s, DInd(n), addr);
        GrowingOnce(old(s), old(s), s, n, path, ps, DInd(n), addr);
      }
      var l1: Idx, l0: Idx := k / NINDIRECT, k % NINDIRECT;
      var x := addr;
      addr := s.ptr[x][l1];
      if addr == 0 {
        ghost var s1 := s;
        addr := AllocEntry(x, l1, Mid(n, l1));
        if addr != 0 {
          FullTakesNone(s1, s, Mid(n, l1), addr);
          GrowingOnce(old(s), s1, s, n, path, ps, Mid(n, l1), addr);
        }
      }
      x := addr;
      addr := s.ptr[x][l0];
      if addr == 0 {
        ghost var s1 := s;
        addr := AllocEntry(x, l0, Leaf(n, l1, l0));
        if addr != 0 {
          FullTakesNone(s1, s, Leaf(n, l1, l0), addr);
          GrowingOnce(old(s), s1, s, n, path, ps, Leaf(n, l1, l0), addr);
        }
      }
    }

    /** iupdate: file n's inode goes to its block on disk, which is logged; no
        file's content changes. */
    method Iupdate(n: Inum)
      requires Sized(s)
      modifies this
      ensures s == old(s).(dinodes := old(s).dinodes[n := old(s).inodes[n]],
                           logged := old(s).logged + {InodeBlock(n)})
      ensures FilesOk(old(s)) ==> FilesOk(s) && forall k: Inum :: Content(s, k) == Content(old(s), k)
    {
      hide FilesOk, Content;
      if FilesOk(s) {
        IupdateKeeps(s, s.(dinodes := s.dinodes[n := s.inodes[n]], logged := s.logged + {InodeBlock(n)}));
      }
      s := s.(dinodes := s.dinodes[n := s.inodes[n]], logged := s.logged + {InodeBlock(n)});
    }

    /** Frees the block at place p, if there is one. */
    method FreeIf(b: Bno, ghost s0: Fs, ghost n: Inum, ghost w: Sweep, ghost w1: Sweep, ghost k: nat, ghost p: Place)
      returns (panicked: bool)
      requires Sweeping(s0, s, n, w, k) && b == Ref(s0, p) && !Swept(p, n, w)
      requires forall q: Place :: Swept(q, n, w1) <==> Swept(q, n, w) || q == p
      modifies this
      ensures !panicked && Sweeping(s0, s, n, w1, k)
    {
      hide SweptBits, Swept, Ref, Owned, BitsExact, ZeroedTo;
      SweepPlace(s0, s.bits, n, w, w1, p);
      SweepingSized(s0, s, n, w, k);
      panicked := false;
      if b != 0 {
        panicked := Bfree(b);
      }
    }

    method TruncDirect(n: Inum, ghost s0: Fs) returns (panicked: bool)
      requires Inv(s) && s == s0
      modifies this
      ensures !panicked && Sweeping(s0, s, n, Sweep(NDIRECT, 0, false, 0, 0, false), NDIRECT)
    {
      hide SweptBits, Owned, BitsExact, ZeroedTo;
      panicked := false;
      SweepNothing(s0, n);
      for i := 0 to NDIRECT
        invariant Sweeping(s0, s, n, Sweep(i, 0, false, 0, 0, false), i)
      {
        ZeroedStep(s0.inodes[n].addrs, i);
        panicked := FreeIf(s.inodes[n].addrs[i], s0, n, Sweep(i, 0, false, 0, 0, false),
                           Sweep(i + 1, 0, false, 0, 0, false), i, Direct(n, i));
        s := s.(inodes := s.inodes[n := s.inodes[n].(addrs := s.inodes[n].addrs[i := 0])]);
      }
    }

    method TruncIndirect(n: Inum, ghost s0: Fs) returns (panicked: bool)
      requires Sweeping(s0, s, n, Sweep(NDIRECT, 0, false, 0, 0, false), NDIRECT)
      modifies this
      ensures !panicked && Sweeping(s0, s, n, Sweep(NDIRECT, NINDIRECT, true, 0, 0, false), NDIRECT + 1)
    {
      hide SweptBits, Owned, BitsExact, ZeroedTo;
      panicked := false;
      ZeroedStep(s0.inodes[n].addrs, NDIRECT);
      var x := s.inodes[n].addrs[NDIRECT];
      if x == 0 {
        SweepEmpty(s0, s.bits, n, Sweep(NDIRECT, 0, false, 0, 0, false), Sweep(NDIRECT, NINDIRECT, true, 0, 0, false));
        ZeroedSame(s0.inodes[n].addrs, NDIRECT);
        return;
      }
      for j := 0 to NINDIRECT
        invariant Sweeping(s0, s, n, Sweep(NDIRECT, j, false, 0, 0, false), NDIRECT)
      {
        panicked := FreeIf(s.ptr[x][j], s0, n, Sweep(NDIRECT, j, false, 0, 0, false),
                           Sweep(NDIRECT, j + 1, false, 0, 0, false), NDIRECT, IndEntry(n, j));
      }
      panicked := FreeIf(x, s0, n, Sweep(NDIRECT, NINDIRECT, false, 0, 0, false),
                         Sweep(NDIRECT, NINDIRECT, true, 0, 0, false), NDIRECT, Ind(n));
      s := s.(inodes := s.inodes[n := s.inodes[n].(addrs := s.inodes[n].addrs[NDIRECT := 0])]);
    }

    method TruncLevel1(n: Inum, x: Bno, i: Idx, ghost s0: Fs) returns (panicked: bool)
      requires Sweeping(s0, s, n, Sweep(NDIRECT, NINDIRECT, true, i, 0, false), NDIRECT + 1)
      requires x == Ref(s0, Mid(n, i))
      modifies this
      ensures !panicked && Sweeping(s0, s, n, Sweep(NDIRECT, NINDIRECT, true, i + 1, 0, false), NDIRECT + 1)
    {
      hide SweptBits, Owned, BitsExact, ZeroedTo;
      panicked := false;
      if x == 0 {
        SweepEmpty(s0, s.bits, n, Sweep(NDIRECT, NINDIRECT, true, i, 0, false),
                   Sweep(NDIRECT, NINDIRECT, true, i + 1, 0, false));
        return;
      }
      for j := 0 to NINDIRECT
        invariant Sweeping(s0, s, n, Sweep(NDIRECT, NINDIRECT, true, i, j, false), NDIRECT + 1)
      {
        panicked := FreeIf(s.ptr[x][j], s0, n, Sweep(NDIRECT, NINDIRECT, true, i, j, false),
                           Sweep(NDIRECT, NINDIRECT, true, i, j + 1, false), NDIRECT + 1, Leaf(n, i, j));
      }
      panicked := FreeIf(x, s0, n, Sweep(NDIRECT, NINDIRECT, true, i, NINDIRECT, false),
                         Sweep(NDIRECT, NINDIRECT, true, i + 1, 0, false), NDIRECT + 1, Mid(n, i));
    }

    method TruncDouble(n: Inum, ghost s0: Fs) returns (panicked: bool)
      requires Sweeping(s0, s, n, Sweep(NDIRECT, NINDIRECT, true, 0, 0, false), NDIRECT + 1)
      modifies this
      ensures !panicked
      ensures Sweeping(s0, s, n, Sweep(NDIRECT, NINDIRECT, true, NINDIRECT, 0, true), NDIRECT + 2)
    {
      hide SweptBits, Owned, BitsExact, ZeroedTo;
      panicked := false;
      ZeroedStep(s0.inodes[n].addrs, NDIRECT + 1);
      var x := s.inodes[n].addrs[NDIRECT + 1];
      if x == 0 {
        SweepEmpty(s0, s.bits, n, Sweep(NDIRECT, NINDIRECT, true, 0, 0, false),
                   Sweep(NDIRECT, NINDIRECT, true, NINDIRECT, 0, true));
        ZeroedSame(s0.inodes[n].addrs, NDIRECT + 1);
        return;
      }
      for i := 0 to NINDIRECT
        invariant Sweeping(s0, s, n, Sweep(NDIRECT, NINDIRECT, true, i, 0, false), NDIRECT + 1)
      {
        panicked := TruncLevel1(n, s.ptr[x][i], i, s0);
      }
      panicked := FreeIf(x, s0, n, Sweep(NDIRECT, NINDIRECT, true, NINDIRECT, 0, false),
                         Sweep(NDIRECT, NINDIRECT, true, NINDIRECT, 0, true), NDIRECT + 1, DInd(n));
      s := s.(inodes := s.inodes[n := s.inodes[n].(addrs := s.inodes[n].addrs[NDIRECT + 1 := 0])]);
    }

    /** Frees exactly the blocks file n refers to, each once; never finds one
        already free. */
    method Itrunc(n: Inum) returns (panicked: bool)
      requires Inv(s)
      modifies this
      ensures !panicked && Inv(s)
      ensures forall b: Bno :: s.bits[b] <==> old(s).bits[b] && !(b in old(s).owner && old(s).owner[b].n == n)
      ensures s.inodes == old(s).inodes[n := Inode(seq(NDIRECT + 2, _ => 0), 0)]
      ensures s.dinodes == old(s).dinodes[n := s.inodes[n]]
      ensures forall p: Place :: Ref(s, p) == if p.n == n then 0 else Ref(old(s), p)
      ensures s.ptr == old(s).ptr && s.data == old(s).data
      ensures old(s).logged <= s.logged <= old(s).logged + {BMAPSTART, InodeBlock(n)}
      ensures FilesOk(old(s)) ==> FilesOk(s) && Content(s, n) == []
      ensures FilesOk(old(s)) ==> forall k: Inum :: k != n ==> Content(s, k) == Content(old(s), k)
    {
      hide SweptBits, Owned, BitsExact, ZeroedTo, Ref;
      panicked := TruncDirect(n, old(s));
      panicked := TruncIndirect(n, old(s));
      panicked := TruncDouble(n, old(s));
      EmptiedInv(old(s), n, s.bits, Sweep(NDIRECT, NINDIRECT, true, NINDIRECT, 0, true));
      AllZeroed(old(s).inodes[n].addrs);
      s := s.(inodes := s.inodes[n := s.inodes[n].(size := 0)],
              owner := map b | b in s.owner && s.owner[b].n != n :: s.owner[b]);
      ghost var t := Emptied(old(s), n, s.bits);
      assert s == t.(logged := s.logged);
      SameTree(t, s);
      Iupdate(n);
      SameTree(t, s);
      if FilesOk(old(s)) {
        TruncContent(old(s), s, n);
      }
    }

    /** One turn of writei's loop: maps the block at off + tot, and copies in
        what fits there. Stops when the disk is full or the source unreadable. */
    method WritePiece(n: Inum, src: seq<nat>, off: nat, len: nat, tot: nat,
                      ghost s0: Fs, ghost ps: set<Place>, ghost c: nat) returns (m: nat, stop: bool)
      requires tot < len && off + len <= MAXSIZE && tot <= |src| && (off + tot) / BSIZE == off / BSIZE + c
      requires Writing(s0, s, n, off, src[..tot], ps, c)
      modifies this
      ensures off / BSIZE + c < MAXFILE
      ensures stop ==> m == 0 && Writing(s0, s, n, off, src[..tot], ps, c + 1) && (Full(s.bits) || |src| < len)
      ensures !stop ==> m == Min(len - tot, BSIZE - (off + tot) % BSIZE) && tot + m <= |src|
      ensures !stop ==> Writing(s0, s, n, off, src[..tot + m], ps, c + 1)
    {
      hide Wrote, LoggedAt, Owned, BitsExact, Ref, Grown, Stored, Paths, Full;
      m := 0;
      var bn := (off + tot) / BSIZE;
      ghost var s1 := s;
      WroteInv(s0, s, n, off, src[..tot]);
      PathsGrow(s, n, off / BSIZE, c, ps);
      var addr, panicked := Bmap(n, bn, ps + Paths(n, off / BSIZE, c + 1));
      WroteGrown(s0, s1, s, n, off, src[..tot], Path(n, bn));
      if addr == 0 {
        return 0, true;
      }
      m := Min(len - tot, BSIZE - (off + tot) % BSIZE);
      if tot + m > |src| {
        return 0, true;
      }
      assert src[..tot] + src[tot..tot + m] == src[..tot + m];
      WroteMore(s0, s, n, off, src[..tot], src[tot..tot + m]);
      StoredLogged(s, n, bn, (off + tot) % BSIZE, src[tot..tot + m], ps + Paths(n, off / BSIZE, c + 1));
      StoredIs(s, addr, (off + tot) % BSIZE, src[tot..tot + m]);
      s := s.(data := s.data[addr := Patch(s.data[addr], (off + tot) % BSIZE, src[tot..tot + m])],
              logged := s.logged + {addr});
      return m, false;
    }

    /** Writes src, of which only the bytes given are readable, over file n from
        off on. The file becomes the splice of its old content with what was
        written, no other file changes, and every file stays free of holes. */
    method Writei(n: Inum, src: seq<nat>, off: nat, len: nat, ghost ps: set<Place>)
      returns (r: int, ghost c: nat)
      requires FilesOk(s) && off < UINT_MAX && len < UINT_MAX && LoggedAt(s, n, ps)
      modifies this
      ensures r == -1 <==> off > old(s).inodes[n].size || off + len > MAXSIZE
      ensures r == -1 ==> s == old(s)
      ensures r != -1 ==> 0 <= r <= len && r <= |src| && FilesOk(s)
      ensures r != -1 ==> Content(s, n) == Spliced(Content(old(s), n), off, src[..r])
      ensures r != -1 ==> forall k: Inum :: k != n ==> Content(s, k) == Content(old(s), k)
      ensures 0 <= r < len ==> Full(s.bits) || |src| < len
      ensures r != -1 ==> s.dinodes == old(s).dinodes[n := s.inodes[n]]
      ensures r != -1 ==> c <= Touched(off, len) && off / BSIZE + c <= MAXFILE &&
                          LoggedAt(s, n, ps + Paths(n, off / BSIZE, c))
    {
      hide Wrote, LoggedAt, Owned, BitsExact, Ref, Stored, Paths, Full, Content, Spliced;
      c := 0;
      var sum := (off + len) % UINT_MAX;
      if off > s.inodes[n].size || sum < off || sum > MAXSIZE {
        return -1, 0;
      }
      var tot := 0;
      WroteNothing(s, n, off);
      PathsNone(s, n, off / BSIZE, ps);
      assert src[..0] == [];
      var stop := false;
      while tot < len && !stop
        invariant 0 <= tot <= len && tot <= |src| && Writing(old(s), s, n, off, src[..tot], ps, c)
        invariant tot < len && !stop ==> (off + tot) / BSIZE == off / BSIZE + c
        invariant c <= Touched(off, len)
        invariant stop ==> Full(s.bits) || |src| < len
        decreases len - tot, !stop
      {
        var m: nat;
        m, stop := WritePiece(n, src, off, len, tot, old(s), ps, c);
        c := c + 1;
        tot := tot + m;
      }
      WriteDone(n, off, src[..tot], old(s), ps, c);
      r := tot;
    }

    /** The end of writei: the size grows, and the inode is written back. */
    method WriteDone(n: Inum, off: nat, d: seq<nat>, ghost s0: Fs, ghost ps: set<Place>, ghost c: nat)
      requires Writing(s0, s, n, off, d, ps, c)
      modifies this
      ensures FilesOk(s) && Content(s, n) == Spliced(Content(s0, n), off, d)
      ensures forall k: Inum :: k != n ==> Content(s, k) == Content(s0, k)
      ensures s.dinodes == s0.dinodes[n := s.inodes[n]] && s.bits == old(s).bits
      ensures LoggedAt(s, n, ps + Paths(n, off / BSIZE, c))
    {
      hide Ref, Owned, BitsExact, Paths, LoggedAt, Content, Spliced, Present, BytesNow;
      ghost var s1 := s;
      if off + |d| > s.inodes[n].size {
        s := s.(inodes := s.inodes[n := s.inodes[n].(size := off + |d|)]);
      }
      WroteContent(s0, s1, n, off, d);
      Iupdate(n);
      IupdateLogged(s1, s, n, ps + Paths(n, off / BSIZE, c));
    }

    /** One turn of readi's loop: maps the next block, and copies out what is
        wanted of it. Stops when the block is missing and the disk full, or there
        is no room. */
    method ReadPiece(n: Inum, off: nat, avail: nat, room: nat, got: seq<nat>, ghost s0: Fs, ghost c: nat)
      returns (all: seq<nat>, stop: bool, bad: bool)
      requires Copying(s0, s, n, off, avail, room, got, c, false, false) && |got| < avail
      modifies this
      ensures Copying(s0, s, n, off, avail, room, all, c + 1, stop, bad) && (bad ==> stop)
      ensures if stop then all == got else |all| > |got|
    {
      hide Owned, BitsExact, Ref, Content, Path, Paths, Grown, Full, NoHole, LoggedAt, BlockAt, Touched;
      all, stop, bad := got, false, false;
      var bn := (off + |got|) / BSIZE;
      ghost var s1 := s;
      var addr, panicked := Bmap(n, bn, Path(n, bn));
      ReadMore(s0, s1, s, n, off / BSIZE, c);
      if addr == 0 {
        return got, true, false;
      }
      var at := (off + |got|) % BSIZE;
      var m := Min(avail - |got|, BSIZE - at);
      if |got| + m > room {
        return got, true, true;
      }
      ReadSame(s0, s, n, off / BSIZE, c + 1);
      ContentPiece(s, n, off, |got|, m);
      CopyMore(off, avail, |got|, m);
      all := got + s.data[addr][at..at + m];
    }

    /** Reads file n from off on into a destination with the given room, and
        maps c blocks of it. Files without holes are read with nothing changed;
        a hole takes a block, and reads as zero, unless the disk is full. */
    method Readi(n: Inum, off: nat, len: nat, room: nat) returns (r: int, got: seq<nat>, ghost c: nat)
      requires Inv(s) && Mappable(s) && off < UINT_MAX && len < UINT_MAX
      modifies this
      ensures off > old(s).inodes[n].size || off + len >= UINT_MAX ==> r == 0 && got == [] && s == old(s)
      ensures off <= old(s).inodes[n].size && off + len < UINT_MAX ==>
                var avail := Min(len, old(s).inodes[n].size - off);
                && Reading(old(s), s, n, off / BSIZE, c) && c == Touched(off, |got|) + (if |got| < avail then 1 else 0)
                && |got| <= avail && |got| <= room && got == Content(old(s), n)[off..off + |got|]
                && (if r == -1 then room < avail else r == |got|)
                && (0 <= r < avail ==> Full(s.bits) && BlockAt(s, n, (off + r) / BSIZE) == 0)
                && (FilesOk(old(s)) ==> s == old(s) && r == if room < avail then -1 else avail)
      ensures Mappable(s) && forall k: Inum :: Content(s, k) == Content(old(s), k)
    {
      hide Owned, BitsExact, Ref, Content, Path, Full, Reading, BlockAt, Copying, Touched, FilesOk;
      got, c := [], 0;
      var sum := (off + len) % UINT_MAX;
      if off > s.inodes[n].size || sum < off {
        return 0, [], 0;
      }
      var avail := if sum > s.inodes[n].size then s.inodes[n].size - off else len;
      var stop, bad := false, false;
      CopyNone(s, n, off, avail, room);
      while |got| < avail && !stop
        invariant Copying(old(s), s, n, off, avail, room, got, c, stop, bad) && (bad ==> stop)
        decreases avail - |got|, !stop
      {
        got, stop, bad := ReadPiece(n, off, avail, room, got, old(s), c);
        c := c + 1;
      }
      CopyDone(old(s), s, n, off, avail, room, got, c, stop, bad);
      ReadSame(old(s), s, n, off / BSIZE, c);
      r := if bad then -1 else |got|;
    }

    /** One transaction of filewrite: at most three blocks' worth of bytes, and
        so at most nine dirty blocks. */
    method WriteChunk(n: Inum, src: seq<nat>, off0: nat, i: nat, n1: nat, ghost s0: Fs) returns (r: int)
      requires Spread(s0, s, n, off0, src, i) && 0 < n1 <= 3 * BSIZE && off0 + i < UINT_MAX
      modifies this
      ensures |s.logged| <= DIRTIED
      ensures -1 <= r <= n1 && Spread(s0, s, n, off0, src, if r == -1 then i else i + r)
      ensures r != -1 ==> off0 + i + n1 <= MAXSIZE
      ensures r == -1 ==> off0 > s0.inodes[n].size || off0 + i + n1 > MAXSIZE
      ensures 0 <= r < n1 ==> Full(s.bits) || |src| < i + n1
    {
      hide Owned, BitsExact, Ref, Content, Spliced, LoggedAt, Paths, Full;
      ghost var t := s;
      s := s.(logged := {});
      IupdateKeeps(t, s);
      LoggedNone(s, n);
      SpliceSize(Content(s0, n), off0, src[..i]);
      ghost var c;
      r, c := Writei(n, src[i..], off0 + i, n1, {});
      if r == -1 {
        return;
      }
      ThreeBlocks(s, n, off0 + i, n1, c);
      SpliceTwice(Content(s0, n), off0, src[..i], src[i..][..r]);
      assert src[..i] + src[i..][..r] == src[..i + r];
    }

    /** filewrite's inode case: the write goes out in transactions of at most
        nine dirty blocks each, and what was written up to the new offset is
        spliced into the file. */
    method Filewrite(n: Inum, src: seq<nat>, off0: nat, len: int)
      returns (ret: int, off: nat, ghost dirtied: seq<set<nat>>)
      requires FilesOk(s) && off0 < UINT_MAX && len < 0x8000_0000
      modifies this
      ensures forall i :: 0 <= i < |dirtied| ==> |dirtied[i]| <= DIRTIED
      ensures off >= off0 && Spread(old(s), s, n, off0, src, off - off0)
      ensures ret == if off - off0 == len then len else -1
      ensures ret == -1 && len >= 0 ==>
                Full(s.bits) || |src| < len || off0 > old(s).inodes[n].size || off0 + len > MAXSIZE
    {
      hide Full, Spread;
      var max := ((MAXOPBLOCKS - 1 - 1 - 2) / 2) * BSIZE;
      var i := 0;
      off, dirtied := off0, [];
      SpreadNone(s, n, off0, src);
      while i < len
        invariant 0 <= i && (len < 0 || i <= len) && off == off0 + i && off < UINT_MAX
        invariant Spread(old(s), s, n, off0, src, i)
        invariant forall j :: 0 <= j < |dirtied| ==> |dirtied[j]| <= DIRTIED
      {
        var n1 := Min(len - i, max);
        var r := WriteChunk(n, src, off0, i, n1, old(s));
        dirtied := dirtied + [s.logged];
        if r > 0 {
          off := off + r;
        }
        if r != n1 {
          break;
        }
        i := i + r;
      }
      ret := if i == len then len else -1;
    }
  }
}
