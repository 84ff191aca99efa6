/** What the on-disk log (kernel/log.c) means after a crash: recovery as a
    function of the disk, every disk a crash during recovery can leave behind,
    and why neither the crash point nor the number of crashes matters. */
module CrashRecovery {
  import opened Common

  const WORDS: nat := 256          // BSIZE / sizeof(uint)

  /** A disk block, as the words the log header is read and written in. */
  datatype Block = Block(words: seq<nat>)

  type Disk = seq<Block>

  /** The header block at start and the LOGBLOCKS blocks after it. */
  predicate InLog(start: nat, b: nat) {
    start <= b <= start + LOGBLOCKS
  }

  predicate IsHeader(h: Block) {
    |h.words| == WORDS
  }

  /** The count stored in the header block. */
  function Count(d: Disk, start: nat): nat
    requires start < |d| && IsHeader(d[start])
  {
    d[start].words[0]
  }

  /** The home block that entry i of a header names. */
  function Entry(h: Block, i: nat): nat
    requires i < LOGBLOCKS && IsHeader(h)
  {
    h.words[1 + i]
  }

  /** A header that recovery can follow. */
  predicate LogOk(d: Disk, start: nat) {
    && start + LOGBLOCKS < |d|
    && IsHeader(d[start])
    && Count(d, start) <= LOGBLOCKS
    && forall i :: 0 <= i < Count(d, start) ==>
         Entry(d[start], i) < |d| && !InLog(start, Entry(d[start], i))
  }

  /** The disk after the first k logged blocks have been copied home. */
  function Installed(d: Disk, start: nat, k: nat): (r: Disk)
    requires LogOk(d, start) && k <= Count(d, start)
    ensures |r| == |d|
    ensures forall b :: start <= b <= start + LOGBLOCKS ==> r[b] == d[b]
  {
    if k == 0 then d
    else Installed(d, start, k - 1)[Entry(d[start], k - 1) := d[start + k]]
  }

  /** The disk with an empty log. */
  function Cleared(d: Disk, start: nat): (r: Disk)
    requires start < |d| && IsHeader(d[start])
    ensures |r| == |d|
  {
    d[start := Block(d[start].words[0 := 0])]
  }

  /** The disk a complete, uninterrupted recovery produces. */
  function Recovered(d: Disk, start: nat): Disk
    requires LogOk(d, start)
  {
    Cleared(Installed(d, start, Count(d, start)), start)
  }

  /** The two disks agree everywhere outside the log. */
  ghost predicate SameHome(start: nat, d: Disk, e: Disk) {
    && |d| == |e|
    && forall b :: 0 <= b < |d| && !InLog(start, b) ==> d[b] == e[b]
  }

  /** The disks that some crash during recovery of d leaves behind. */
  ghost predicate RecoveryPoint(start: nat, d: Disk, e: Disk) {
    && LogOk(d, start)
    && (e == Recovered(d, start) || exists k :: 0 <= k <= Count(d, start) && e == Installed(d, start, k))
  }

  // ---- installing ----

  /** The last of the first k entries whose home is b, or -1. */
  function LastEntry(h: Block, k: nat, b: nat): (i: int)
    requires k <= LOGBLOCKS && IsHeader(h)
    ensures -1 <= i < k
    ensures i >= 0 ==> Entry(h, i) == b
    ensures forall j :: i < j < k ==> Entry(h, j) != b
  {
    if k == 0 then -1
    else if Entry(h, k - 1) == b then k - 1
    else LastEntry(h, k - 1, b)
  }

  /** A block holds its last logged copy, or keeps its contents if none of
      the first k entries names it. */
  lemma {:induction false} InstalledAt(d: Disk, start: nat, k: nat, b: nat)
    requires LogOk(d, start) && k <= Count(d, start) && b < |d|
    ensures var i := LastEntry(d[start], k, b);
      Installed(d, start, k)[b] == if i < 0 then d[b] else d[start + i + 1]
  {
    if k > 0 {
      InstalledAt(d, start, k - 1, b);
    }
  }

  /** Starting over from a disk with k entries already installed gives the
      same result. */
  lemma Reinstall(d: Disk, start: nat, k: nat)
    requires LogOk(d, start) && k <= Count(d, start)
    ensures var e, n := Installed(d, start, k), Count(d, start);
      && LogOk(e, start) && Count(e, start) == n
      && Installed(e, start, n) == Installed(d, start, n)
  {
    var e, n := Installed(d, start, k), Count(d, start);
    assert e[start] == d[start];
    assert forall i :: 0 <= i < n ==> Entry(e[start], i) == Entry(d[start], i);
    assert LogOk(e, start);
    forall b | 0 <= b < |d|
      ensures Installed(e, start, n)[b] == Installed(d, start, n)[b]
    {
      InstalledAt(d, start, k, b);
      InstalledAt(d, start, n, b);
      InstalledAt(e, start, n, b);
    }
  }

  // ---- crashes during recovery ----

  /** Recovering the disk left by one crash during recovery of d ends with the
      very disk that an uninterrupted recovery of d gives. */
  lemma RecoveryPointRecovers(start: nat, d: Disk, e: Disk)
    requires RecoveryPoint(start, d, e)
    ensures LogOk(e, start)
    ensures Recovered(e, start) == Recovered(d, start)
  {
    if e == Recovered(d, start) {
      assert e[start].words[0] == 0;
      assert Installed(e, start, 0) == e;
      assert e[start].words[0 := 0] == e[start].words;
      assert Cleared(e, start) == e;
    } else {
      var k :| 0 <= k <= Count(d, start) && e == Installed(d, start, k);
      Reinstall(d, start, k);
    }
  }

  /** A history of crashes: each disk is what a crash left while recovering
      the one before. */
  ghost predicate CrashChain(start: nat, ds: seq<Disk>) {
    forall i :: 0 <= i < |ds| - 1 ==> RecoveryPoint(start, ds[i], ds[i + 1])
  }

  /** Any number of crashes during recovery leave its result unchanged. */
  lemma {:induction false} ChainRecovers(start: nat, ds: seq<Disk>)
    requires |ds| > 0 && LogOk(ds[0], start) && CrashChain(start, ds)
    ensures LogOk(ds[|ds| - 1], start)
    ensures Recovered(ds[|ds| - 1], start) == Recovered(ds[0], start)
    decreases |ds|
  {
    if |ds| > 1 {
      RecoveryPointRecovers(start, ds[0], ds[1]);
      assert CrashChain(start, ds[1..]);
      ChainRecovers(start, ds[1..]);
    }
  }

  /** Recovery is idempotent. */
  lemma RecoverTwice(d: Disk, start: nat)
    requires LogOk(d, start)
    ensures LogOk(Recovered(d, start), start)
    ensures Recovered(Recovered(d, start), start) == Recovered(d, start)
  {
    RecoveryPointRecovers(start, d, Recovered(d, start));
  }

  // ---- commit ----

  /** The disks that the block writes of one commit pass through: up to the
      write that makes the header non-empty they recover to pre, from then on
      to post. */
  ghost predicate AtomicTrace(start: nat, states: seq<Disk>, pre: Disk, post: Disk) {
    exists c :: 0 <= c <= |states| && SplitsAt(start, states, pre, post, c)
  }

  ghost predicate SplitsAt(start: nat, states: seq<Disk>, pre: Disk, post: Disk, c: nat)
    requires c <= |states|
  {
    && (forall k :: 0 <= k < |states| ==> LogOk(states[k], start))
    && (forall k :: 0 <= k < c ==>
          Count(states[k], start) == 0 && SameHome(start, Recovered(states[k], start), pre))
    && (forall k :: c <= k < |states| ==> SameHome(start, Recovered(states[k], start), post))
    && (c < |states| ==> Count(states[c], start) > 0)
  }

  /** The trace of a commit, put together: writes into an empty log, the
      header write that makes it d, and points of the recovery of d. */
  lemma SplitsAtHeader(start: nat, states: seq<Disk>, pre: Disk, post: Disk, c: nat)
    requires c <= |states|
    requires forall k :: 0 <= k < c ==>
               LogOk(states[k], start) && Count(states[k], start) == 0 && SameHome(start, states[k], pre)
    requires c < |states| ==>
               && LogOk(states[c], start) && Count(states[c], start) > 0
               && SameHome(start, Recovered(states[c], start), post)
    requires forall k :: c <= k < |states| ==> RecoveryPoint(start, states[c], states[k])
    ensures AtomicTrace(start, states, pre, post)
  {
    forall k | c <= k < |states|
      ensures LogOk(states[k], start) && SameHome(start, Recovered(states[k], start), post)
    {
      RecoveryPointRecovers(start, states[c], states[k]);
    }
    assert SplitsAt(start, states, pre, post, c);
  }

  /** The non-empty header had reached the disk by the k-th write. */
  ghost predicate HeaderWritten(start: nat, states: seq<Disk>, k: nat)
    requires k < |states|
  {
    exists i :: 0 <= i <= k && LogOk(states[i], start) && Count(states[i], start) > 0
  }

  /** A crash after any write of a commit, then any number of crashes during
      recovery: a completed recovery yields exactly the disk before or the
      disk after the transaction, and the one after it if and only if the
      non-empty header had reached the disk. */
  lemma CrashAnywhere(start: nat, states: seq<Disk>, pre: Disk, post: Disk, k: nat, ds: seq<Disk>)
    requires AtomicTrace(start, states, pre, post) && k < |states|
    requires |ds| > 0 && ds[0] == states[k] && CrashChain(start, ds)
    ensures forall i :: 0 <= i < |states| ==> LogOk(states[i], start)
    ensures LogOk(ds[|ds| - 1], start)
    ensures SameHome(start, Recovered(ds[|ds| - 1], start), if HeaderWritten(start, states, k) then post else pre)
  {
    var c :| 0 <= c <= |states| && SplitsAt(start, states, pre, post, c);
    ChainRecovers(start, ds);
    if c <= k {
      assert Count(states[c], start) > 0;
    }
  }
}
