/** What a program asks kernel/exec.c for: its size, permissions, contents and
    arguments, computed header by header as exec does it, and told from the
    headers and arguments alone. */
module ProgramImage {
  import opened Common
  import opened PageRefs
  import opened CopyOnWrite
  import opened Kernel = Memory

  const USERSTACK: nat := 1                       // pages
  const MAXARG: nat := 32
  const U64: nat := 0x1_0000_0000_0000_0000

  /** A program header: one that could not be read, one of another type, or a
      segment to load, with the bytes of the file from its offset on. */
  datatype Header =
    | Unreadable
    | Skipped
    | Segment(vaddr: nat, memsz: nat, filesz: nat, x: bool, w: bool, data: seq<nat>)

  // ---- what a program asks for ----

  /** How far the segments reach. */
  function SizeOf(hs: seq<Header>): nat {
    if hs == [] then 0 else
    var sz, h := SizeOf(hs[..|hs| - 1]), hs[|hs| - 1];
    if h.Segment? && h.vaddr + h.memsz > sz then h.vaddr + h.memsz else sz
  }

  /** The header can be read and makes sense, and the file has its bytes. */
  predicate Accepted(h: Header) {
    !h.Unreadable? &&
    (h.Segment? ==> h.filesz <= h.memsz && h.vaddr + h.memsz < U64 && h.vaddr % PGSIZE == 0 && h.filesz <= |h.data|)
  }

  /** All headers do, and no segment leaves the program empty: uvmalloc's answer
      is then 0, which is taken for a failure. */
  predicate Loads(hs: seq<Header>) {
    hs == [] || (Loads(hs[..|hs| - 1]) && Accepted(hs[|hs| - 1]) && (hs[|hs| - 1].Segment? ==> SizeOf(hs) > 0))
  }

  function SegmentPerm(h: Header): Perm {
    Perm(true, h.Segment? && h.w, h.Segment? && h.x, true, false)
  }

  /** The permissions of page v: those of the first segment that reaches it. */
  function PermAt(hs: seq<Header>, v: nat): Perm {
    if hs == [] then SegmentPerm(Skipped)
    else if v < PagesOf(SizeOf(hs[..|hs| - 1])) then PermAt(hs[..|hs| - 1], v)
    else SegmentPerm(hs[|hs| - 1])
  }

  /** Space next with the segments' bytes in it. */
  function Loaded(e: Eager, next: nat, hs: seq<Header>): Eager {
    if hs == [] then e else
    var f, h := Loaded(e, next, hs[..|hs| - 1]), hs[|hs| - 1];
    if h.Segment? && h.filesz <= |h.data| then Stored(f, next, h.vaddr, h.data[..h.filesz]) else f
  }

  /** The guard page, and the size of the program with its stack. */
  function Guard(hs: seq<Header>): nat {
    PagesOf(SizeOf(hs))
  }

  function Top(hs: seq<Header>): nat {
    (Guard(hs) + 1 + USERSTACK) * PGSIZE
  }

  function StackPerm(u: bool): Perm {
    Perm(true, true, false, u, false)
  }

  /** The permissions of page v of the finished program. */
  function ImagePerm(hs: seq<Header>, v: nat): Perm {
    if v < Guard(hs) then PermAt(hs, v) else StackPerm(v > Guard(hs))
  }

  function Align(sp: int): int {
    sp - sp % 16
  }

  /** The stack pointer after i arguments, each with its final zero. */
  function ArgSp(top: nat, argv: seq<seq<nat>>, i: nat): int
    requires i <= |argv|
  {
    if i == 0 then top else Align(ArgSp(top, argv, i - 1) - |argv[i - 1]| - 1)
  }

  function VectorSp(top: nat, argv: seq<seq<nat>>): int {
    Align(ArgSp(top, argv, |argv|) - 8 * (|argv| + 1))
  }

  function LittleEndian(n: nat, k: nat): (b: seq<nat>)
    ensures |b| == k
  {
    if k == 0 then [] else [n % 256] + LittleEndian(n / 256, k - 1)
  }

  /** The addresses of the first i arguments, as argv holds them. */
  function Addresses(top: nat, argv: seq<seq<nat>>, i: nat): (b: seq<nat>)
    requires i <= |argv| && ArgSp(top, argv, i) >= 0
    ensures |b| == 8 * i
  {
    if i == 0 then [] else Addresses(top, argv, i - 1) + LittleEndian(ArgSp(top, argv, i), 8)
  }

  function Argued(e: Eager, next: nat, top: nat, argv: seq<seq<nat>>, i: nat): Eager
    requires i <= |argv| && ArgSp(top, argv, i) >= 0
  {
    if i == 0 then e
    else Stored(Argued(e, next, top, argv, i - 1), next, ArgSp(top, argv, i), argv[i - 1] + [0])
  }

  /** The program can be run: its headers load, and its arguments fit below the
      top of the stack. */
  predicate Runs(hs: seq<Header>, argv: seq<seq<nat>>) {
    Loads(hs) && |argv| < MAXARG && VectorSp(Top(hs), argv) >= Top(hs) - USERSTACK * PGSIZE
  }

  /** What space next holds when the program starts. */
  function Image(e: Eager, next: nat, hs: seq<Header>, argv: seq<seq<nat>>): Eager
    requires Runs(hs, argv)
  {
    var top := Top(hs);
    Stored(Argued(Loaded(e, next, hs), next, top, argv, |argv|), next, VectorSp(top, argv),
           Addresses(top, argv, |argv|) + LittleEndian(0, 8))
  }

  lemma {:induction false} LoadedElsewhere(e: Eager, next: nat, hs: seq<Header>, x: UPage)
    requires x.space != next
    ensures Loaded(e, next, hs)(x) == e(x)
  {
    if hs != [] {
      LoadedElsewhere(e, next, hs[..|hs| - 1], x);
    }
  }

  lemma {:induction false} ArguedElsewhere(e: Eager, next: nat, top: nat, argv: seq<seq<nat>>, i: nat, x: UPage)
    requires x.space != next && i <= |argv| && ArgSp(top, argv, i) >= 0
    ensures Argued(e, next, top, argv, i)(x) == e(x)
  {
    if i > 0 {
      ArguedElsewhere(e, next, top, argv, i - 1, x);
    }
  }

  /** A program is seen in its own space only. */
  lemma ImageElsewhere(e: Eager, next: nat, hs: seq<Header>, argv: seq<seq<nat>>, x: UPage)
    requires Runs(hs, argv) && x.space != next
    ensures Image(e, next, hs, argv)(x) == e(x)
  {
    LoadedElsewhere(e, next, hs, x);
    ArguedElsewhere(Loaded(e, next, hs), next, Top(hs), argv, |argv|, x);
  }

  lemma SizeMore(hs: seq<Header>, h: Header)
    ensures (hs + [h])[..|hs|] == hs
    ensures SizeOf(hs + [h]) == if h.Segment? && h.vaddr + h.memsz > SizeOf(hs) then h.vaddr + h.memsz else SizeOf(hs)
    ensures Guard(hs) <= Guard(hs + [h])
  {
    assert (hs + [h])[..|hs|] == hs;
  }

  lemma {:induction false} SizeGrows(hs: seq<Header>, i: nat)
    requires i <= |hs|
    ensures SizeOf(hs[..i]) <= SizeOf(hs) && (Loads(hs) ==> Loads(hs[..i]))
    decreases |hs| - i
  {
    if i == |hs| {
      assert hs[..i] == hs;
    } else {
      SizeGrows(hs, i + 1);
      assert hs[..i + 1] == hs[..i] + [hs[i]];
      SizeMore(hs[..i], hs[i]);
    }
  }

  // ---- the same, told from the headers and arguments alone ----

  predicate Reaches(h: Header, v: nat) {
    h.Segment? && v * PGSIZE < h.vaddr + h.memsz
  }

  predicate InProgram(hs: seq<Header>, v: nat) {
    exists j :: 0 <= j < |hs| && Reaches(hs[j], v)
  }

  /** Segment j is the first whose pages reach page v. */
  predicate FirstReaches(hs: seq<Header>, j: nat, v: nat) {
    j < |hs| && Reaches(hs[j], v) && forall i :: 0 <= i < j ==> !Reaches(hs[i], v)
  }

  /** The byte at a comes from the file. */
  predicate Covers(h: Header, a: nat) {
    h.Segment? && h.vaddr <= a < h.vaddr + h.filesz
  }

  /** Segment j is the last to put a byte at a. */
  predicate LastCovers(hs: seq<Header>, j: nat, a: nat) {
    j < |hs| && Covers(hs[j], a) && forall i :: j < i < |hs| ==> !Covers(hs[i], a)
  }

  /** The pages below the guard page are those that some segment reaches. */
  lemma {:induction false} GuardReached(hs: seq<Header>, v: nat)
    ensures v < Guard(hs) <==> InProgram(hs, v)
  {
    if hs != [] {
      var n := |hs| - 1;
      GuardReached(hs[..n], v);
      assert v < Guard(hs) <==> v < Guard(hs[..n]) || Reaches(hs[n], v);
      if v < Guard(hs[..n]) {
        var j :| 0 <= j < n && Reaches(hs[..n][j], v);
        assert Reaches(hs[j], v);
      }
      forall j | 0 <= j < n && Reaches(hs[j], v) ensures Reaches(hs[..n][j], v) {
      }
    }
  }

  /** A page has the permissions of the first segment that reaches it. */
  lemma {:induction false} FirstPerm(hs: seq<Header>, j: nat, v: nat)
    requires FirstReaches(hs, j, v)
    ensures v < Guard(hs) && PermAt(hs, v) == Perm(true, hs[j].w, hs[j].x, true, false)
  {
    var n := |hs| - 1;
    GuardReached(hs[..n], v);
    if j < n {
      FirstPerm(hs[..n], j, v);
    } else {
      assert forall i :: 0 <= i < n ==> hs[..n][i] == hs[i];
    }
    GuardReached(hs, v);
  }

  lemma {:induction false} LoadedByte(e: Eager, next: nat, hs: seq<Header>, j: nat, a: nat)
    requires Loads(hs) && LastCovers(hs, j, a)
    ensures a >= hs[j].vaddr && a - hs[j].vaddr < |hs[j].data|
    ensures ByteAt(Loaded(e, next, hs), next, a) == hs[j].data[a - hs[j].vaddr]
  {
    hide Stored;
    var n := |hs| - 1;
    var h := hs[n];
    if j < n {
      LoadedByte(e, next, hs[..n], j, a);
    }
    if h.Segment? {
      StoredByte(Loaded(e, next, hs[..n]), next, h.vaddr, h.data[..h.filesz], next, a);
    }
  }

  lemma {:induction false} LoadedZero(e: Eager, next: nat, hs: seq<Header>, a: nat)
    requires Loads(hs) && forall i :: 0 <= i < |hs| ==> !Covers(hs[i], a)
    ensures ByteAt(Loaded(e, next, hs), next, a) == ByteAt(e, next, a)
  {
    hide Stored;
    if hs != [] {
      var n := |hs| - 1;
      LoadedZero(e, next, hs[..n], a);
      if hs[n].Segment? {
        StoredByte(Loaded(e, next, hs[..n]), next, hs[n].vaddr, hs[n].data[..hs[n].filesz], next, a);
      }
    }
  }

  lemma {:induction false} SpBelow(top: nat, argv: seq<seq<nat>>, m: nat, i: nat)
    requires m <= i <= |argv|
    ensures ArgSp(top, argv, i) <= ArgSp(top, argv, m)
    decreases i
  {
    if m < i {
      SpBelow(top, argv, m, i - 1);
    }
  }

  /** Each argument is where its stack pointer says, with its final zero: what is
      pushed later lies below it. */
  lemma {:induction false} ArguedByte(e: Eager, next: nat, top: nat, argv: seq<seq<nat>>, i: nat, m: nat, j: nat)
    requires m < i <= |argv| && ArgSp(top, argv, i) >= 0 && j <= |argv[m]|
    ensures ArgSp(top, argv, m + 1) >= 0
    ensures ByteAt(Argued(e, next, top, argv, i), next, ArgSp(top, argv, m + 1) + j) == (argv[m] + [0])[j]
    decreases i
  {
    hide Stored;
    SpBelow(top, argv, m + 1, i);
    var f := Argued(e, next, top, argv, i - 1);
    StoredByte(f, next, ArgSp(top, argv, i), argv[i - 1] + [0], next, ArgSp(top, argv, m + 1) + j);
    if m < i - 1 {
      ArguedByte(e, next, top, argv, i - 1, m, j);
      SpBelow(top, argv, m + 1, i - 1);
    }
  }

  /** Nothing above the stack pointer's start or below where it is changes. */
  lemma {:induction false} ArguedOutside(e: Eager, next: nat, top: nat, argv: seq<seq<nat>>, i: nat, a: nat)
    requires i <= |argv| && ArgSp(top, argv, i) >= 0 && a < ArgSp(top, argv, i)
    ensures ByteAt(Argued(e, next, top, argv, i), next, a) == ByteAt(e, next, a)
    decreases i
  {
    hide Stored;
    if i > 0 {
      StoredByte(Argued(e, next, top, argv, i - 1), next, ArgSp(top, argv, i), argv[i - 1] + [0], next, a);
      ArguedOutside(e, next, top, argv, i - 1, a);
    }
  }

  /** The number that bytes make, the least significant first. */
  function Number(b: seq<nat>): nat {
    if b == [] then 0 else b[0] + 256 * Number(b[1..])
  }

  function Power(k: nat): nat {
    if k == 0 then 1 else 256 * Power(k - 1)
  }

  lemma {:induction false} NumberBack(n: nat, k: nat)
    requires n < Power(k)
    ensures Number(LittleEndian(n, k)) == n
  {
    if k > 0 {
      NumberBack(n / 256, k - 1);
      assert LittleEndian(n, k)[1..] == LittleEndian(n / 256, k - 1);
    }
  }

  lemma {:induction false} AddressAt(top: nat, argv: seq<seq<nat>>, i: nat, m: nat)
    requires m < i <= |argv| && ArgSp(top, argv, i) >= 0
    ensures ArgSp(top, argv, m + 1) >= 0
    ensures Addresses(top, argv, i)[8 * m..8 * m + 8] == LittleEndian(ArgSp(top, argv, m + 1), 8)
    decreases i
  {
    SpBelow(top, argv, m + 1, i);
    if m < i - 1 {
      AddressAt(top, argv, i - 1, m);
      assert Addresses(top, argv, i)[8 * m..8 * m + 8] == Addresses(top, argv, i - 1)[8 * m..8 * m + 8];
    }
  }

  /** The 64-bit number at va. */
  function WordAt(e: Eager, space: nat, va: nat): nat {
    Number(seq<nat>(8, i requires 0 <= i < 8 => ByteAt(e, space, va + i)))
  }

  lemma WordStored(e: Eager, space: nat, va: nat, src: seq<nat>, m: nat)
    requires 8 * m + 8 <= |src|
    ensures WordAt(Stored(e, space, va, src), space, va + 8 * m) == Number(src[8 * m..8 * m + 8])
  {
    hide Stored;
    var w := seq<nat>(8, i requires 0 <= i < 8 => ByteAt(Stored(e, space, va, src), space, va + 8 * m + i));
    forall i | 0 <= i < 8 ensures w[i] == src[8 * m..8 * m + 8][i] {
      StoredByte(e, space, va, src, space, va + 8 * m + i);
    }
    assert w == src[8 * m..8 * m + 8];
  }

  /** argv, as main gets it: sp is aligned, entry m of the array at sp is the
      address of argument m, a string with a final zero, and the entry after the
      last is 0. */
  ghost predicate Passes(f: Eager, space: nat, sp: nat, argv: seq<seq<nat>>) {
    && sp % 16 == 0 && WordAt(f, space, sp + 8 * |argv|) == 0
    && forall m :: 0 <= m < |argv| ==> ArgAt(f, space, WordAt(f, space, sp + 8 * m), argv[m])
  }

  ghost predicate ArgAt(f: Eager, space: nat, a: nat, arg: seq<nat>) {
    ByteAt(f, space, a + |arg|) == 0 && forall j :: 0 <= j < |arg| ==> ByteAt(f, space, a + j) == arg[j]
  }

  /** The program, as its first instruction finds it: a byte is the file's, from
      the last segment that has one for it, and zero if none has. */
  ghost predicate Holds(f: Eager, space: nat, hs: seq<Header>) {
    && (forall j: nat, a: nat :: LastCovers(hs, j, a) ==>
          a - hs[j].vaddr < |hs[j].data| && ByteAt(f, space, a) == hs[j].data[a - hs[j].vaddr])
    && (forall a: nat :: a < Guard(hs) * PGSIZE && (forall i :: 0 <= i < |hs| ==> !Covers(hs[i], a)) ==>
          ByteAt(f, space, a) == 0)
  }

  lemma ImagePasses(e: Eager, next: nat, hs: seq<Header>, argv: seq<seq<nat>>)
    requires Runs(hs, argv) && Top(hs) < Power(8)
    ensures VectorSp(Top(hs), argv) >= 0 && Passes(Image(e, next, hs, argv), next, VectorSp(Top(hs), argv), argv)
  {
    hide Loads, Loaded, Guard, Argued, Stored, Passes;
    ArgumentsThere(Loaded(e, next, hs), next, Top(hs), argv);
  }

  lemma ArgumentsThere(e: Eager, next: nat, top: nat, argv: seq<seq<nat>>)
    requires VectorSp(top, argv) >= 0 && top < Power(8)
    ensures Passes(Stored(Argued(e, next, top, argv, |argv|), next, VectorSp(top, argv),
                          Addresses(top, argv, |argv|) + LittleEndian(0, 8)), next, VectorSp(top, argv), argv)
  {
    hide Stored, Argued, Power, WordAt, ArgAt, LittleEndian, ArgSp, Addresses, Number;
    var sp, last := VectorSp(top, argv), LittleEndian(0, 8);
    var g, src := Argued(e, next, top, argv, |argv|), Addresses(top, argv, |argv|) + last;
    WordStored(g, next, sp, src, |argv|);
    assert src[8 * |argv|..8 * |argv| + 8] == last;
    NumberBack(0, 8);
    var f := Stored(g, next, sp, src);
    forall m | 0 <= m < |argv| ensures ArgAt(f, next, WordAt(f, next, sp + 8 * m), argv[m]) {
      AddressThere(g, next, sp, top, argv, m, last);
      ArgumentThere(e, next, top, argv, m, sp, src);
    }
  }

  lemma AddressThere(g: Eager, next: nat, sp: nat, top: nat, argv: seq<seq<nat>>, m: nat, last: seq<nat>)
    requires m < |argv| && ArgSp(top, argv, |argv|) >= 0 && top < Power(8)
    ensures WordAt(Stored(g, next, sp, Addresses(top, argv, |argv|) + last), next, sp + 8 * m) ==
            ArgSp(top, argv, m + 1)
  {
    hide Stored, Power, WordAt, LittleEndian, ArgSp, Addresses, Number;
    var src := Addresses(top, argv, |argv|) + last;
    WordStored(g, next, sp, src, m);
    AddressAt(top, argv, |argv|, m);
    assert src[8 * m..8 * m + 8] == Addresses(top, argv, |argv|)[8 * m..8 * m + 8];
    SpBelow(top, argv, 0, m + 1);
    FirstSp(top, argv);
    NumberBack(ArgSp(top, argv, m + 1), 8);
  }

  lemma FirstSp(top: nat, argv: seq<seq<nat>>)
    ensures ArgSp(top, argv, 0) == top
  {
  }

  lemma ArgumentThere(e: Eager, next: nat, top: nat, argv: seq<seq<nat>>, m: nat, sp: nat, src: seq<nat>)
    requires m < |argv| && ArgSp(top, argv, |argv|) >= 0 && sp + |src| <= ArgSp(top, argv, |argv|)
    ensures ArgSp(top, argv, m + 1) >= 0
    ensures ArgAt(Stored(Argued(e, next, top, argv, |argv|), next, sp, src), next, ArgSp(top, argv, m + 1), argv[m])
  {
    hide Stored, Argued;
    SpBelow(top, argv, m + 1, |argv|);
    var g, a := Argued(e, next, top, argv, |argv|), ArgSp(top, argv, m + 1);
    forall j | 0 <= j < |argv[m]| ensures ByteAt(Stored(g, next, sp, src), next, a + j) == argv[m][j] {
      ArguedByte(e, next, top, argv, |argv|, m, j);
      StoredByte(g, next, sp, src, next, a + j);
    }
    ArguedByte(e, next, top, argv, |argv|, m, |argv[m]|);
    StoredByte(g, next, sp, src, next, a + |argv[m]|);
  }

  lemma ImageHolds(e: Eager, next: nat, hs: seq<Header>, argv: seq<seq<nat>>)
    requires Runs(hs, argv) && forall a: nat :: ByteAt(e, next, a) == 0
    ensures Holds(Image(e, next, hs, argv), next, hs)
  {
    hide Stored, Loads, Loaded, Argued, Passes;
    var f := Image(e, next, hs, argv);
    forall a: nat | a < Guard(hs) * PGSIZE ensures ByteAt(f, next, a) == ByteAt(Loaded(e, next, hs), next, a) {
      BelowStack(Loaded(e, next, hs), next, hs, argv, a);
    }
    forall j: nat, a: nat | LastCovers(hs, j, a)
      ensures a - hs[j].vaddr < |hs[j].data| && ByteAt(f, next, a) == hs[j].data[a - hs[j].vaddr]
    {
      LoadedByte(e, next, hs, j, a);
      CoveredBelow(hs, j, a);
    }
    forall a: nat | a < Guard(hs) * PGSIZE && (forall i :: 0 <= i < |hs| ==> !Covers(hs[i], a))
      ensures ByteAt(f, next, a) == 0
    {
      LoadedZero(e, next, hs, a);
    }
  }

  lemma BelowStack(e: Eager, next: nat, hs: seq<Header>, argv: seq<seq<nat>>, a: nat)
    requires Runs(hs, argv) && a < Guard(hs) * PGSIZE
    ensures var top := Top(hs);
      ByteAt(Stored(Argued(e, next, top, argv, |argv|), next, VectorSp(top, argv),
                    Addresses(top, argv, |argv|) + LittleEndian(0, 8)), next, a) == ByteAt(e, next, a)
  {
    hide Stored, Argued, Loads, Addresses, LittleEndian, Guard;
    var top := Top(hs);
    StoredByte(Argued(e, next, top, argv, |argv|), next, VectorSp(top, argv),
               Addresses(top, argv, |argv|) + LittleEndian(0, 8), next, a);
    ArguedOutside(e, next, top, argv, |argv|, a);
  }

  lemma CoveredBelow(hs: seq<Header>, j: nat, a: nat)
    requires Loads(hs) && j < |hs| && Covers(hs[j], a)
    ensures a < Guard(hs) * PGSIZE
  {
    AcceptedAt(hs, j);
    var v := a / PGSIZE;
    assert Reaches(hs[j], v);
    GuardReached(hs, v);
  }

  lemma {:induction false} AcceptedAt(hs: seq<Header>, j: nat)
    requires Loads(hs) && j < |hs|
    ensures Accepted(hs[j])
  {
    if j < |hs| - 1 {
      AcceptedAt(hs[..|hs| - 1], j);
    }
  }
}
