/** What a file holds: its bytes, read through its block tree, and how a
    written piece changes them. */
module FileData {
  import opened Common
  import opened BlockTree

  const MAXSIZE: nat := MAXFILE * BSIZE

  /** Byte o of file n; a hole reads as zero. */
  function Byte(s: Fs, n: Inum, o: nat): nat
    requires Sized(s) && o < MAXSIZE
  {
    if BlockAt(s, n, o / BSIZE) == 0 then 0 else s.data[BlockAt(s, n, o / BSIZE)][o % BSIZE]
  }

  /** Every file is within the size bmap can map. */
  ghost predicate Mappable(s: Fs) {
    Sized(s) && forall n: Inum :: s.inodes[n].size <= MAXSIZE
  }

  /** Every file is within the size bmap can map, and has a block for every
      byte below its size. */
  ghost predicate FilesOk(s: Fs) {
    && Inv(s) && Mappable(s)
    && (forall n: Inum, bn: nat :: bn < MAXFILE && bn * BSIZE < s.inodes[n].size ==> BlockAt(s, n, bn) != 0)
  }

  function Content(s: Fs, n: Inum): (c: seq<nat>)
    requires Sized(s) && s.inodes[n].size <= MAXSIZE
    ensures |c| == s.inodes[n].size
  {
    seq(s.inodes[n].size, o requires 0 <= o < s.inodes[n].size => Byte(s, n, o))
  }

  /** c with d written over it from off on, extended if d goes past its end. */
  function Spliced(c: seq<nat>, off: nat, d: seq<nat>): seq<nat>
    requires off <= |c|
  {
    c[..off] + d + if off + |d| < |c| then c[off + |d|..] else []
  }

  function Patch(blk: Bytes, at: nat, d: seq<nat>): Bytes
    requires at + |d| <= BSIZE
  {
    blk[..at] + d + blk[at + |d|..]
  }

  /** Block b with d stored at offset at, and logged. */
  function Stored(s: Fs, b: Bno, at: nat, d: seq<nat>): Fs
    requires Sized(s) && at + |d| <= BSIZE
  {
    s.(data := s.data[b := Patch(s.data[b], at, d)], logged := s.logged + {b})
  }

  lemma StoredInv(s: Fs, b: Bno, at: nat, d: seq<nat>)
    requires Inv(s) && at + |d| <= BSIZE
    ensures Inv(Stored(s, b, at, d)) && forall p: Place :: Ref(Stored(s, b, at, d), p) == Ref(s, p)
  {
    assert forall p: Place :: Ref(Stored(s, b, at, d), p) == Ref(s, p);
  }

  /** Storing into file n's block bn changes those bytes of file n, and no
      other byte of any file. */
  lemma StoredByte(s: Fs, n: Inum, bn: nat, at: nat, d: seq<nat>, k: Inum, o: nat)
    requires Inv(s) && bn < MAXFILE && BlockAt(s, n, bn) != 0 && at + |d| <= BSIZE && o < MAXSIZE
    ensures Sized(Stored(s, BlockAt(s, n, bn), at, d))
    ensures Byte(Stored(s, BlockAt(s, n, bn), at, d), k, o) ==
            if k == n && bn * BSIZE + at <= o < bn * BSIZE + at + |d| then d[o - bn * BSIZE - at]
            else Byte(s, k, o)
  {
  }

  lemma InvSized(s: Fs)
    requires Inv(s)
    ensures Sized(s)
  {
  }

  /** The blocks bmap adds change no byte of any file: a hole reads as zero
      before and after it is filled. */
  lemma GrownByte(s0: Fs, s1: Fs, ps: set<Place>, k: Inum, o: nat)
    requires Inv(s0) && Inv(s1) && Grown(s0, s1, ps) && o < MAXSIZE
    ensures Byte(s1, k, o) == Byte(s0, k, o)
  {
    hide Ref, BitsExact;
    GrownRef(s0, s1, ps, PlaceOf(k, o / BSIZE));
  }

  lemma GrownContent(s0: Fs, s1: Fs, ps: set<Place>, k: Inum)
    requires Inv(s0) && Inv(s1) && Grown(s0, s1, ps) && s0.inodes[k].size <= MAXSIZE
    ensures s1.inodes[k].size == s0.inodes[k].size && Content(s1, k) == Content(s0, k)
  {
    forall o: nat | o < s0.inodes[k].size ensures Byte(s1, k, o) == Byte(s0, k, o) {
      GrownByte(s0, s1, ps, k, o);
    }
    hide Byte, Owned, Ref, BitsExact;
  }

  lemma GrownJoin(s0: Fs, s: Fs, s1: Fs, ps: set<Place>, qs: set<Place>)
    requires Grown(s0, s, ps) && Grown(s, s1, qs)
    ensures Grown(s0, s1, ps + qs)
  {
  }

  // ---- a write in progress ----

  /** No file lost a block, and file n has those of [off, off + len). */
  ghost predicate Present(s0: Fs, s: Fs, n: Inum, off: nat, len: nat)
    requires Sized(s0) && Sized(s)
  {
    && (forall k: Inum, bn: nat :: bn < MAXFILE && BlockAt(s0, k, bn) != 0 ==> BlockAt(s, k, bn) != 0)
    && (forall bn: nat :: off / BSIZE <= bn < MAXFILE && bn * BSIZE < off + len ==> BlockAt(s, n, bn) != 0)
  }

  /** Those bytes of file n are d, and every other byte below a file's size is
      as before. */
  ghost predicate BytesNow(s0: Fs, s: Fs, n: Inum, off: nat, d: seq<nat>)
    requires Sized(s0) && Sized(s) && off + |d| <= MAXSIZE
    requires forall k: Inum :: s0.inodes[k].size <= MAXSIZE
  {
    && (forall k: Inum, o: nat :: o < s0.inodes[k].size && !(k == n && off <= o < off + |d|) ==>
          Byte(s, k, o) == Byte(s0, k, o))
    && (forall o: nat :: off <= o < off + |d| ==> Byte(s, n, o) == d[o - off])
  }

  ghost predicate SizesSame(s0: Fs, s: Fs)
    requires Sized(s0) && Sized(s)
  {
    (forall k: Inum :: s.inodes[k].size == s0.inodes[k].size) && s.dinodes == s0.dinodes
  }

  /** From s0 to s, d was written into file n at off. */
  ghost predicate Wrote(s0: Fs, s: Fs, n: Inum, off: nat, d: seq<nat>) {
    && FilesOk(s0) && Inv(s) && off <= s0.inodes[n].size && off + |d| <= MAXSIZE
    && SizesSame(s0, s) && Present(s0, s, n, off, |d|) && BytesNow(s0, s, n, off, d)
  }

  lemma WroteNothing(s: Fs, n: Inum, off: nat)
    requires FilesOk(s) && off <= s.inodes[n].size
    ensures Wrote(s, s, n, off, [])
  {
  }

  /** bmap's allocations in the middle of a write lose nothing. */
  lemma WroteGrown(s0: Fs, s: Fs, s1: Fs, n: Inum, off: nat, d: seq<nat>, ps: set<Place>)
    requires Wrote(s0, s, n, off, d) && Inv(s1) && Grown(s, s1, ps)
    ensures Wrote(s0, s1, n, off, d)
  {
    hide Owned, Ref, BitsExact, Byte, BytesNow;
    forall k: Inum, bn: nat | bn < MAXFILE && BlockAt(s, k, bn) != 0
      ensures BlockAt(s1, k, bn) != 0
    {
      GrownRef(s, s1, ps, PlaceOf(k, bn));
    }
    BytesGrown(s0, s, s1, n, off, d, ps);
  }

  lemma BytesGrown(s0: Fs, s: Fs, s1: Fs, n: Inum, off: nat, d: seq<nat>, ps: set<Place>)
    requires Wrote(s0, s, n, off, d) && Inv(s1) && Grown(s, s1, ps)
    ensures BytesNow(s0, s1, n, off, d)
  {
    hide Owned, Ref, BitsExact, Byte, Grown, BlockAt;
    forall k: Inum, o: nat | o < MAXSIZE ensures Byte(s1, k, o) == Byte(s, k, o)
    {
      GrownByte(s, s1, ps, k, o);
    }
  }

  /** The next piece e goes into the block at the end of what is written. */
  lemma WroteMore(s0: Fs, s: Fs, n: Inum, off: nat, d: seq<nat>, e: seq<nat>)
    requires Wrote(s0, s, n, off, d) && off + |d| + |e| <= MAXSIZE && off + |d| < MAXSIZE
    requires (off + |d|) % BSIZE + |e| <= BSIZE && BlockAt(s, n, (off + |d|) / BSIZE) != 0
    ensures Wrote(s0, Stored(s, BlockAt(s, n, (off + |d|) / BSIZE), (off + |d|) % BSIZE, e), n, off, d + e)
  {
    hide Ref, Inv, Byte, BytesNow;
    InvSized(s);
    InvSized(s0);
    var b, at := BlockAt(s, n, (off + |d|) / BSIZE), (off + |d|) % BSIZE;
    StoredInv(s, b, at, e);
    var t := Stored(s, b, at, e);
    InvSized(t);
    BytesMore(s0, s, n, off, d, e);
    forall bn: nat | off / BSIZE <= bn < MAXFILE && bn * BSIZE < off + |d| + |e|
      ensures BlockAt(t, n, bn) != 0
    {
      assert BlockAt(t, n, bn) == BlockAt(s, n, bn);
      assert bn * BSIZE < off + |d| || bn == (off + |d|) / BSIZE;
    }
  }

  lemma BytesMore(s0: Fs, s: Fs, n: Inum, off: nat, d: seq<nat>, e: seq<nat>)
    requires Wrote(s0, s, n, off, d) && off + |d| + |e| <= MAXSIZE && off + |d| < MAXSIZE
    requires (off + |d|) % BSIZE + |e| <= BSIZE && BlockAt(s, n, (off + |d|) / BSIZE) != 0
    ensures Sized(Stored(s, BlockAt(s, n, (off + |d|) / BSIZE), (off + |d|) % BSIZE, e))
    ensures BytesNow(s0, Stored(s, BlockAt(s, n, (off + |d|) / BSIZE), (off + |d|) % BSIZE, e), n, off, d + e)
  {
    hide Ref, Owned, Byte, BlockAt, Present, SizesSame, Stored;
    var bn, at := (off + |d|) / BSIZE, (off + |d|) % BSIZE;
    StoredByte(s, n, bn, at, e, n, 0);
    forall k: Inum, o: nat | o < MAXSIZE
      ensures Byte(Stored(s, BlockAt(s, n, bn), at, e), k, o) ==
              if k == n && off + |d| <= o < off + |d| + |e| then e[o - off - |d|] else Byte(s, k, o)
    {
      StoredByte(s, n, bn, at, e, k, o);
    }
  }

  /** File n with its size raised to cover what was written. */
  function Resized(s: Fs, n: Inum, end: nat): Fs
    requires Sized(s)
  {
    if end > s.inodes[n].size then s.(inodes := s.inodes[n := s.inodes[n].(size := end)]) else s
  }

  lemma ResizedRefs(s: Fs, n: Inum, end: nat)
    requires Inv(s)
    ensures Inv(Resized(s, n, end)) && forall p: Place :: Ref(Resized(s, n, end), p) == Ref(s, p)
  {
    assert Sized(Resized(s, n, end));
    assert forall p: Place :: Ref(Resized(s, n, end), p) == Ref(s, p);
  }

  lemma ResizedByte(s: Fs, n: Inum, end: nat, k: Inum, o: nat)
    requires Inv(s) && o < MAXSIZE
    ensures Sized(Resized(s, n, end)) && Byte(Resized(s, n, end), k, o) == Byte(s, k, o)
  {
  }

  lemma ContentWritten(s0: Fs, s: Fs, n: Inum, off: nat, d: seq<nat>)
    requires Wrote(s0, s, n, off, d) && FilesOk(Resized(s, n, off + |d|))
    ensures Content(Resized(s, n, off + |d|), n) == Spliced(Content(s0, n), off, d)
  {
    hide Ref, Owned, BitsExact, Present, Byte;
    var t := Resized(s, n, off + |d|);
    assert |Content(t, n)| == |Spliced(Content(s0, n), off, d)|;
    forall o: nat | o < |Content(t, n)| ensures Content(t, n)[o] == Spliced(Content(s0, n), off, d)[o] {
      ResizedByte(s, n, off + |d|, n, o);
    }
  }

  lemma ContentKept(s0: Fs, s: Fs, n: Inum, off: nat, d: seq<nat>, k: Inum)
    requires Wrote(s0, s, n, off, d) && FilesOk(Resized(s, n, off + |d|)) && k != n
    ensures Content(Resized(s, n, off + |d|), k) == Content(s0, k)
  {
  }

  lemma FilesResized(s0: Fs, s: Fs, n: Inum, off: nat, d: seq<nat>)
    requires Wrote(s0, s, n, off, d)
    ensures FilesOk(Resized(s, n, off + |d|))
  {
    var t := Resized(s, n, off + |d|);
    ResizedRefs(s, n, off + |d|);
    hide Ref, Inv, Byte, BytesNow;
    InvSized(s);
    InvSized(s0);
    InvSized(t);
    forall k: Inum, bn: nat | bn < MAXFILE && bn * BSIZE < t.inodes[k].size ensures BlockAt(t, k, bn) != 0 {
      assert BlockAt(t, k, bn) == BlockAt(s, k, bn);
      if bn * BSIZE >= s0.inodes[k].size {
        assert k == n && off / BSIZE <= bn;
      } else {
        assert BlockAt(s0, k, bn) != 0;
      }
    }
  }

  /** A finished write: file n is spliced, every other file is as it was, and
      no file has a hole. */
  lemma WroteContent(s0: Fs, s: Fs, n: Inum, off: nat, d: seq<nat>)
    requires Wrote(s0, s, n, off, d)
    ensures FilesOk(Resized(s, n, off + |d|))
    ensures Content(Resized(s, n, off + |d|), n) == Spliced(Content(s0, n), off, d)
    ensures forall k: Inum :: k != n ==> Content(Resized(s, n, off + |d|), k) == Content(s0, k)
  {
    hide Ref, Owned, BitsExact, Present, Byte, SizesSame, Content, Spliced, BytesNow;
    FilesResized(s0, s, n, off, d);
    ContentWritten(s0, s, n, off, d);
    forall k: Inum | k != n ensures Content(Resized(s, n, off + |d|), k) == Content(s0, k) {
      ContentKept(s0, s, n, off, d, k);
    }
  }

  // ---- how many blocks a write dirties ----

  /** The places bmap visits for c file blocks from lo on. */
  function Paths(n: Inum, lo: nat, c: nat): set<Place>
    requires lo + c <= MAXFILE
  {
    if c == 0 then {} else Paths(n, lo, c - 1) + Path(n, lo + c - 1)
  }

  /** The indirect blocks on the way to file block bn. */
  function Tables(n: Inum, bn: nat): set<Place>
    requires bn < MAXFILE
  {
    Path(n, bn) - {PlaceOf(n, bn)}
  }

  function Leaves(n: Inum, lo: nat, c: nat): (ps: set<Place>)
    requires lo + c <= MAXFILE
    ensures |ps| <= c
  {
    if c == 0 then {} else Leaves(n, lo, c - 1) + {PlaceOf(n, lo + c - 1)}
  }

  lemma {:induction false} PathsSplit(n: Inum, lo: nat, c: nat, last: nat)
    requires lo + c <= last + 1 && lo <= last < MAXFILE && last <= lo + 3
    ensures Paths(n, lo, c) <= Leaves(n, lo, c) + (Tables(n, lo) + Tables(n, last))
  {
    hide Path, PlaceOf;
    if c > 0 {
      PathsSplit(n, lo, c - 1, last);
      TablesBetween(n, lo, lo + c - 1, last);
    }
  }

  lemma TablesBetween(n: Inum, lo: nat, bn: nat, last: nat)
    requires lo <= bn <= last < MAXFILE && last <= lo + 3
    ensures Tables(n, bn) <= Tables(n, lo) + Tables(n, last)
  {
  }

  lemma TwoTables(n: Inum, lo: nat, last: nat)
    requires lo <= last < MAXFILE && last <= lo + 3
    ensures |Tables(n, lo) + Tables(n, last)| <= 3
  {
  }

  lemma NoPaths(n: Inum, lo: nat)
    requires lo <= MAXFILE
    ensures Paths(n, lo, 0) == {}
  {
  }

  /** Up to four consecutive file blocks lie at no more than seven places:
      they cross at most one boundary between indirect blocks. */
  lemma FourBlocks(n: Inum, lo: nat, c: nat)
    requires c <= 4 && lo + c <= MAXFILE
    ensures |Paths(n, lo, c)| <= 7
  {
    hide Path, PlaceOf, Paths, Leaves, Tables;
    if c == 0 {
      NoPaths(n, lo);
    } else {
      var ts := Tables(n, lo) + Tables(n, lo + c - 1);
      PathsSplit(n, lo, c, lo + c - 1);
      TwoTables(n, lo, lo + c - 1);
      SubsetSize(Paths(n, lo, c), Leaves(n, lo, c) + ts);
    }
  }

  /** Distinct logged blocks lie at distinct places, so a transaction that
      stayed on seven places dirtied at most nine blocks. */
  lemma LoggedBound(s: Fs, n: Inum, ps: set<Place>)
    requires Inv(s) && LoggedAt(s, n, ps)
    ensures |s.logged| <= |ps| + 2
  {
    hide Ref;
    var ours := set x | x in s.logged && x in s.owner;
    Injected(s, ours, ps);
    var all := ours + {BMAPSTART, InodeBlock(n)};
    assert s.logged <= all;
    assert all == s.logged + (all - s.logged);
  }

  lemma {:induction false} Injected(s: Fs, xs: set<nat>, ps: set<Place>)
    requires Inv(s) && forall x :: x in xs ==> x in s.owner && s.owner[x] in ps
    ensures |xs| <= |ps|
    decreases |xs|
  {
    hide Ref;
    if xs != {} {
      var x :| x in xs;
      Injected(s, xs - {x}, ps - {s.owner[x]});
    }
  }
}
