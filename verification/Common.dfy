/** What several models share: the parameters of kernel/param.h and
    kernel/memlayout.h, and a few general notions. */
module Common {
  const MAXOPBLOCKS: nat := 10                  // blocks one file system operation may write
  const LOGBLOCKS: nat := 3 * MAXOPBLOCKS
  const NBUF: nat := 3 * MAXOPBLOCKS
  const BSIZE: nat := 1024

  const NPAGES: nat := 131072                   // (PHYSTOP - KERNBASE) / PGSIZE
  const MAXVPN: nat := 0x400_0000               // MAXVA / PGSIZE
  const TRAMPOLINE: nat := MAXVPN - 1
  const TRAPFRAME: nat := MAXVPN - 2

  datatype Option<T> = None | Some(value: T)

  function Elems(q: seq<nat>): set<nat> {
    set b | b in q
  }

  lemma SubsetSize<T>(a: set<T>, b: set<T>)
    requires a <= b
    ensures |a| <= |b| && (|a| == |b| ==> a == b)
  {
    assert b == a + (b - a);
  }
}
