/** The three-level page table of kernel/vm.c as values: which page holds which
    table, and the flat map from page number to leaf entry that it stands for. */
module PageTree {
  import opened Common

  const ENTRIES: nat := 512
  const VPNS: nat := ENTRIES * ENTRIES * ENTRIES

  /** A physical page; 0 is the null pointer. */
  type Pa = x: nat | x < NPAGES witness 0
  type Idx = x: nat | x < ENTRIES witness 0

  datatype Pte = Pte(v: bool, r: bool, w: bool, x: bool, u: bool, c: bool, pa: Pa) {
    predicate Leaf() {
      r || w || x
    }
  }

  const ZERO: Pte := Pte(false, false, false, false, false, false, 0)

  type Table = t: seq<Pte> | |t| == ENTRIES witness seq(ENTRIES, _ => ZERO)

  function ZeroTable(): Table {
    seq(ENTRIES, _ => ZERO)
  }

  /** A place in the tree that may hold a table. */
  datatype Place = Root | Mid(i: Idx) | Last(i: Idx, j: Idx)

  datatype State = State(
    tab: seq<Table>,                // every physical page, read as a table
    root: Pa,
    free: seq<Pa>,                  // the free list
    dropped: seq<Pa>,               // leaf pages passed to kfree
    owner: map<Pa, Place>)          // the place of each page used as a table

  ghost predicate Sized(s: State) {
    |s.tab| == NPAGES
  }

  function Child(e: Pte): Pa {
    if e.v then e.pa else 0
  }

  function Entry(s: State, t: Pa, i: Idx): Pte
    requires Sized(s)
  {
    if t == 0 then ZERO else s.tab[t][i]
  }

  /** The table at a place, 0 if none. */
  function Tbl(s: State, p: Place): Pa
    requires Sized(s)
  {
    match p
    case Root => s.root
    case Mid(i) => Child(Entry(s, s.root, i))
    case Last(i, j) => Child(Entry(s, Child(Entry(s, s.root, i)), j))
  }

  /** The leaf entry for page number n: the translation the table stands for. */
  function Flat(s: State, n: nat): Pte
    requires Sized(s) && n < VPNS
  {
    Entry(s, Tbl(s, LastOf(n)), n % ENTRIES)
  }

  function LastOf(n: nat): Place
    requires n < VPNS
  {
    Last(n / ENTRIES / ENTRIES, n / ENTRIES % ENTRIES)
  }

  /** The translation of virtual address va by the hardware (Sv39, section 4.4 of
      the RISC-V privileged architecture): nine bits of the address at each level
      select an entry, from the root on. */
  function Sv39(s: State, va: nat): Pte
    requires Sized(s)
  {
    var top := s.tab[s.root][va / 0x4000_0000 % 512];
    if !top.v then ZERO
    else
      var mid := s.tab[top.pa][va / 0x20_0000 % 512];
      if !mid.v then ZERO else s.tab[mid.pa][va / 0x1000 % 512]
  }

  /** The map that the table stands for is what the hardware finds in it. */
  lemma HardwareSees(s: State, va: nat)
    requires Inv(s) && va < VPNS * 0x1000
    ensures Sv39(s, va) == Flat(s, va / 0x1000)
  {
    var n := va / 0x1000;
    Bits(va);
    var i, j := n / ENTRIES / ENTRIES, n / ENTRIES % ENTRIES;
    assert s.tab[Tbl(s, Root)][i].v ==> s.tab[Tbl(s, Root)][i].pa != 0;
    var mid := Child(s.tab[s.root][i]);
    assert Tbl(s, Mid(i)) == mid;
    assert mid != 0 && s.tab[mid][j].v ==> s.tab[mid][j].pa != 0;
  }

  lemma Bits(va: nat)
    requires va < VPNS * 0x1000
    ensures va / 0x4000_0000 % 512 == va / 0x1000 / ENTRIES / ENTRIES
    ensures va / 0x20_0000 % 512 == va / 0x1000 / ENTRIES % ENTRIES
  {
  }

  /** Each table page is at one place only. */
  ghost predicate Owned(s: State)
    requires Sized(s)
  {
    && (forall p: Place :: Tbl(s, p) != 0 ==> Tbl(s, p) in s.owner && s.owner[Tbl(s, p)] == p)
    && (forall b :: b in s.owner ==> b != 0 && Tbl(s, s.owner[b]) == b)
  }

  /** Upper tables hold only pointers, last-level tables only leaves. */
  ghost predicate Shaped(s: State)
    requires Sized(s)
  {
    forall p: Place, i: Idx :: Tbl(s, p) != 0 && s.tab[Tbl(s, p)][i].v ==>
      if p.Last? then s.tab[Tbl(s, p)][i].Leaf() else !s.tab[Tbl(s, p)][i].Leaf() && s.tab[Tbl(s, p)][i].pa != 0
  }

  ghost predicate Frees(free: seq<Pa>, owner: map<Pa, Place>) {
    && (forall i :: 0 <= i < |free| ==> free[i] != 0 && free[i] !in owner)
    && (forall i, j :: 0 <= i < j < |free| ==> free[i] != free[j])
  }

  ghost predicate Inv(s: State) {
    Sized(s) && s.root != 0 && Owned(s) && Shaped(s) && Frees(s.free, s.owner)
  }

  // ---- adding a table ----

  /** kalloc of the first free page, zeroed. */
  function Taken(s: State): State
    requires Sized(s) && |s.free| > 0
  {
    s.(tab := s.tab[s.free[0] := ZeroTable()], free := s.free[1..])
  }

  function Up(p: Place): Place
    requires !p.Root?
  {
    match p
    case Mid(_) => Root
    case Last(i, _) => Mid(i)
  }

  function Pos(p: Place): Idx
    requires !p.Root?
  {
    match p
    case Mid(i) => i
    case Last(_, j) => j
  }

  function Pointer(b: Pa): Pte {
    ZERO.(v := true, pa := b)
  }

  /** Table page b is linked at place p. */
  function Linked(s: State, p: Place, b: Pa): State
    requires Sized(s) && !p.Root?
  {
    var t := Tbl(s, Up(p));
    s.(tab := s.tab[t := s.tab[t][Pos(p) := Pointer(b)]], owner := s.owner[b := p])
  }

  lemma OnlyPlace(s: State, p: Place, q: Place)
    requires Sized(s) && Owned(s) && Tbl(s, p) != 0
    ensures Tbl(s, p) == Tbl(s, q) ==> p == q
  {
  }

  lemma NotOwned(s: State, p: Place, b: Pa)
    requires Sized(s) && Owned(s) && b !in s.owner && b != 0
    ensures Tbl(s, p) != b
  {
  }

  /** A page that is not in the tree can be overwritten freely. */
  lemma ScratchTbl(s: State, b: Pa, t: Table, p: Place)
    requires Sized(s) && Owned(s) && b !in s.owner && b != 0
    ensures Tbl(s.(tab := s.tab[b := t]), p) == Tbl(s, p)
  {
    hide Owned;
    NotOwned(s, Root, b);
    if p.Last? {
      NotOwned(s, Mid(p.i), b);
    }
  }

  lemma ScratchFlat(s: State, b: Pa, t: Table, n: nat)
    requires Sized(s) && Owned(s) && b !in s.owner && b != 0 && n < VPNS
    ensures Flat(s.(tab := s.tab[b := t]), n) == Flat(s, n)
  {
    hide Owned, Tbl;
    ScratchTbl(s, b, t, LastOf(n));
    NotOwned(s, LastOf(n), b);
  }

  /** Linking a zeroed page changes the table at p and at no other place. */
  lemma LinkedTbl(s: State, p: Place, b: Pa, q: Place)
    requires Sized(s) && Owned(s) && !p.Root? && Tbl(s, Up(p)) != 0 && Tbl(s, p) == 0
    requires b !in s.owner && b != 0 && s.tab[b] == ZeroTable()
    ensures Tbl(Linked(s, p, b), q) == if q == p then b else Tbl(s, q)
  {
    hide Owned;
    NotOwned(s, Up(p), b);
    OnlyPlace(s, Up(p), Root);
    if q.Last? {
      OnlyPlace(s, Up(p), Mid(q.i));
    }
  }

  /** ... and no translation. */
  lemma LinkedFlat(s: State, p: Place, b: Pa, n: nat)
    requires Sized(s) && Owned(s) && !p.Root? && Tbl(s, Up(p)) != 0 && Tbl(s, p) == 0
    requires b !in s.owner && b != 0 && s.tab[b] == ZeroTable() && n < VPNS
    ensures Flat(Linked(s, p, b), n) == Flat(s, n)
  {
  }

  /** The state after walk has added a table at place p. */
  function Added(s: State, p: Place): State
    requires Sized(s) && |s.free| > 0 && !p.Root?
  {
    Linked(Taken(s), p, s.free[0])
  }

  ghost predicate CanAdd(s: State, p: Place)
    requires Sized(s)
  {
    !p.Root? && |s.free| > 0 && Tbl(s, p) == 0 && Tbl(s, Up(p)) != 0
  }

  /** Adding a table keeps the tree and every translation. */
  lemma AddedKeeps(s: State, p: Place)
    requires Inv(s) && CanAdd(s, p)
    ensures Inv(Added(s, p))
    ensures forall q: Place :: Tbl(Added(s, p), q) == if q == p then s.free[0] else Tbl(s, q)
    ensures forall n: nat :: n < VPNS ==> Flat(Added(s, p), n) == Flat(s, n)
  {
    hide Owned, Tbl, Flat, Shaped, Frees, Linked;
    var b, t := s.free[0], Taken(s);
    FirstFree(s.free, s.owner, p);
    TakenTree(s);
    LinkedFrame(t, p, b);
    forall q: Place ensures Tbl(Added(s, p), q) == if q == p then b else Tbl(s, q) {
      ScratchTbl(s, b, ZeroTable(), q);
      LinkedTbl(t, p, b, q);
    }
    forall n: nat | n < VPNS ensures Flat(Added(s, p), n) == Flat(s, n) {
      ScratchFlat(s, b, ZeroTable(), n);
      FlatReads(s.(tab := s.tab[b := ZeroTable()]), t, n);
      LinkedFlat(t, p, b, n);
    }
    AddedOwned(s, p);
    AddedShaped(s, p);
  }

  lemma FirstFree(free: seq<Pa>, owner: map<Pa, Place>, p: Place)
    requires Frees(free, owner) && |free| > 0
    ensures free[0] != 0 && free[0] !in owner
    ensures Frees(free[1..], owner[free[0] := p])
  {
  }

  lemma TakenTree(s: State)
    requires Sized(s) && Owned(s) && |s.free| > 0 && s.free[0] !in s.owner && s.free[0] != 0
    ensures Owned(Taken(s)) && forall p: Place :: Tbl(Taken(s), p) == Tbl(s, p)
  {
    hide Tbl;
    forall p: Place ensures Tbl(Taken(s), p) == Tbl(s, p) {
      ScratchTbl(s, s.free[0], ZeroTable(), p);
      TblReads(s.(tab := s.tab[s.free[0] := ZeroTable()]), Taken(s), p);
    }
  }

  lemma TblReads(s: State, t: State, p: Place)
    requires Sized(s) && t.tab == s.tab && t.root == s.root
    ensures Tbl(t, p) == Tbl(s, p)
  {
  }

  lemma FlatReads(s: State, t: State, n: nat)
    requires Sized(s) && t.tab == s.tab && t.root == s.root && n < VPNS
    ensures Flat(t, n) == Flat(s, n)
  {
  }

  lemma LinkedFrame(s: State, p: Place, b: Pa)
    requires Sized(s) && !p.Root?
    ensures var t := Linked(s, p, b);
      Sized(t) && t.free == s.free && t.root == s.root && t.dropped == s.dropped && t.owner == s.owner[b := p]
  {
  }

  lemma AddedOwned(s: State, p: Place)
    requires Sized(s) && Owned(s) && CanAdd(s, p) && s.free[0] != 0 && s.free[0] !in s.owner
    requires Sized(Added(s, p))
    requires forall q: Place :: Tbl(Added(s, p), q) == if q == p then s.free[0] else Tbl(s, q)
    ensures Owned(Added(s, p))
  {
  }

  lemma AddedShaped(s: State, p: Place)
    requires Sized(s) && Owned(s) && Shaped(s) && CanAdd(s, p) && s.free[0] != 0 && s.free[0] !in s.owner
    requires Sized(Added(s, p))
    requires forall q: Place :: Tbl(Added(s, p), q) == if q == p then s.free[0] else Tbl(s, q)
    ensures Shaped(Added(s, p))
  {
  }

  // ---- writing a leaf entry ----

  /** Leaf entry e stored for page number n. */
  function WithLeaf(s: State, n: nat, e: Pte): State
    requires Sized(s) && n < VPNS
  {
    var t := Tbl(s, LastOf(n));
    s.(tab := s.tab[t := s.tab[t][n % ENTRIES := e]])
  }

  /** A leaf entry changes its own translation and no other, and no table. */
  lemma WithLeafKeeps(s: State, n: nat, e: Pte)
    requires Inv(s) && n < VPNS && Tbl(s, LastOf(n)) != 0 && (e.v ==> e.Leaf())
    ensures Inv(WithLeaf(s, n, e))
    ensures forall q: Place :: Tbl(WithLeaf(s, n, e), q) == Tbl(s, q)
    ensures forall m: nat :: m < VPNS ==> Flat(WithLeaf(s, n, e), m) == if m == n then e else Flat(s, m)
  {
    hide Owned, Frees;
    var t := Tbl(s, LastOf(n));
    forall q: Place ensures Tbl(WithLeaf(s, n, e), q) == Tbl(s, q) {
      LeafTbl(s, n, e, q);
    }
    hide Tbl;
    forall m: nat | m < VPNS ensures Flat(WithLeaf(s, n, e), m) == if m == n then e else Flat(s, m) {
      OnlyPlace(s, LastOf(n), LastOf(m));
      SameLast(n, m);
    }
    LeafOwned(s, WithLeaf(s, n, e));
    forall q: Place | Tbl(s, q) == t ensures q == LastOf(n) {
      OnlyPlace(s, LastOf(n), q);
    }
  }

  lemma SameLast(n: nat, m: nat)
    requires n < VPNS && m < VPNS
    ensures LastOf(n) == LastOf(m) && n % ENTRIES == m % ENTRIES ==> n == m
  {
  }

  lemma LeafTbl(s: State, n: nat, e: Pte, q: Place)
    requires Sized(s) && Owned(s) && n < VPNS && Tbl(s, LastOf(n)) != 0
    ensures Tbl(WithLeaf(s, n, e), q) == Tbl(s, q)
  {
    hide Owned;
    OnlyPlace(s, LastOf(n), Root);
    if q.Last? {
      OnlyPlace(s, LastOf(n), Mid(q.i));
    }
  }

  lemma LeafOwned(s: State, t: State)
    requires Sized(s) && Owned(s) && Sized(t) && t.owner == s.owner
    requires forall q: Place :: Tbl(t, q) == Tbl(s, q)
    ensures Owned(t)
  {
  }
}
