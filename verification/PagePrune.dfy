/** Taking a page table apart: which tables are gone after part of freewalk,
    and what is left of the tree. */
module PagePrune {
  import opened PageTree

  /** A part of the tree: what lies below p through an entry before k, or p and
      all below it. */
  datatype Part = Before(p: Place, k: nat) | Whole(p: Place)

  predicate In(q: Place, part: Part) {
    match part
    case Whole(Root) => true
    case Whole(Mid(i)) => !q.Root? && q.i == i
    case Whole(Last(i, j)) => q == Last(i, j)
    case Before(Root, k) => !q.Root? && q.i < k
    case Before(Mid(i), k) => q.Last? && q.i == i && q.j < k
    case Before(Last(_, _), _) => false
  }

  function Below(p: Place, k: Idx): Place
    requires !p.Last?
  {
    if p.Root? then Mid(k) else Last(p.i, k)
  }

  lemma PartStep(q: Place, p: Place, k: Idx)
    ensures In(q, Before(p, k + 1)) <==> In(q, Before(p, k)) || (!p.Last? && In(q, Whole(Below(p, k))))
    ensures In(q, Before(p, ENTRIES)) <==> In(q, Whole(p)) && q != p
  {
  }

  /** Exactly the tables in the part went from the tree to the free list, each
      once. */
  ghost predicate Released(s0: State, s: State, part: Part) {
    && (forall b :: b in s.owner <==> b in s0.owner && !In(s0.owner[b], part))
    && (forall b :: b in s.owner ==> s.owner[b] == s0.owner[b])
    && (forall b :: b in s.free <==> b in s0.free || (b in s0.owner && In(s0.owner[b], part)))
    && |s.free| + |s.owner| == |s0.free| + |s0.owner|
    && s.root == s0.root && s.dropped == s0.dropped && Frees(s.free, s.owner)
  }

  /** Pages outside the part hold what they held, but for the first k entries
      of the table t. */
  ghost predicate Untouched(s0: State, s: State, part: Part, t: Pa, k: nat)
    requires Sized(s0) && Sized(s)
  {
    forall b: Pa, i: Idx :: !(b in s0.owner && In(s0.owner[b], part)) && !(b == t && i < k) ==>
      s.tab[b][i] == s0.tab[b][i]
  }

  /** freewalk at p has handled the entries before k. */
  ghost predicate Pruned(s0: State, s: State, p: Place, k: nat) {
    && Inv(s0) && Inv(s) && Released(s0, s, Before(p, k))
    && Untouched(s0, s, Before(p, k), Tbl(s0, p), k)
    && forall q: Place :: Tbl(s, q) == if In(q, Before(p, k)) then 0 else Tbl(s0, q)
  }

  /** The whole subtree at p has been freed and its pages overwritten; the
      entry that led to p is still there. */
  ghost predicate Removed(s0: State, s: State, p: Place) {
    && Inv(s0) && Sized(s) && Released(s0, s, Whole(p)) && Untouched(s0, s, Whole(p), 0, 0)
  }

  lemma PrunedNone(s: State, p: Place)
    requires Inv(s)
    ensures Pruned(s, s, p, 0)
  {
  }

  /** Entry k holds no table. */
  lemma PruneSkip(s0: State, s: State, p: Place, k: Idx)
    requires Pruned(s0, s, p, k) && (p.Last? || Tbl(s0, Below(p, k)) == 0)
    ensures Pruned(s0, s, p, k + 1)
  {
    hide Owned, Shaped, Frees;
    forall q: Place | In(q, Before(p, k + 1)) && !In(q, Before(p, k)) ensures Tbl(s0, q) == 0 {
      PartStep(q, p, k);
      if !p.Last? {
        NoneUnder(s0, Below(p, k), q);
      }
    }
    ReleasedSame(s0, s, Before(p, k), Before(p, k + 1));
  }

  lemma NoneUnder(s: State, p: Place, q: Place)
    requires Sized(s) && s.root != 0 && Tbl(s, p) == 0 && In(q, Whole(p))
    ensures Tbl(s, q) == 0
  {
  }

  lemma ReleasedSame(s0: State, s: State, part: Part, part1: Part)
    requires Inv(s0) && Sized(s) && Released(s0, s, part)
    requires forall q: Place :: In(q, part) ==> In(q, part1)
    requires forall q: Place :: In(q, part1) && !In(q, part) ==> Tbl(s0, q) == 0
    ensures Released(s0, s, part1)
  {
  }

  /** Entry k of table t zeroed. */
  function Zeroed(s: State, t: Pa, k: Idx): State
    requires Sized(s)
  {
    s.(tab := s.tab[t := s.tab[t][k := ZERO]])
  }

  ghost predicate CanCut(s: State, r: State, p: Place, k: Idx) {
    Inv(s) && !p.Last? && Tbl(s, Below(p, k)) != 0 && Tbl(s, p) != 0 && Removed(s, r, Below(p, k))
  }

  /** With its entry zeroed, a removed subtree is out of the tree. */
  lemma CutTbl(s: State, r: State, p: Place, k: Idx, q: Place)
    requires CanCut(s, r, p, k)
    ensures Tbl(Zeroed(r, Tbl(s, p), k), q) == if In(q, Whole(Below(p, k))) then 0 else Tbl(s, q)
  {
    hide Released, Frees, Shaped, Owned;
    ReleasedFrees(s, r, Whole(Below(p, k)));
    OutsidePage(s, r, p, k, Root);
    OutsidePage(s, r, p, k, p);
    OnlyPlace(s, p, Root);
    if q.Last? {
      OutsidePage(s, r, p, k, Mid(q.i));
      OnlyPlace(s, p, Mid(q.i));
    }
  }

  /** A table outside the removed subtree keeps its entries. */
  lemma OutsidePage(s: State, r: State, p: Place, k: Idx, q: Place)
    requires CanCut(s, r, p, k)
    ensures Tbl(s, q) != 0 && !In(q, Whole(Below(p, k))) ==> r.tab[Tbl(s, q)] == s.tab[Tbl(s, q)]
  {
  }

  lemma CutOwned(s: State, r: State, p: Place, k: Idx)
    requires CanCut(s, r, p, k)
    ensures Sized(Zeroed(r, Tbl(s, p), k)) && Owned(Zeroed(r, Tbl(s, p), k))
  {
    hide Frees, Shaped, Untouched, In;
    forall q: Place ensures Tbl(Zeroed(r, Tbl(s, p), k), q) == if In(q, Whole(Below(p, k))) then 0 else Tbl(s, q) {
      CutTbl(s, r, p, k, q);
    }
    hide Tbl;
  }

  lemma CutShaped(s: State, r: State, p: Place, k: Idx)
    requires CanCut(s, r, p, k)
    ensures Sized(Zeroed(r, Tbl(s, p), k)) && Shaped(Zeroed(r, Tbl(s, p), k))
  {
    hide Frees, Untouched, Released, Owned, In;
    var t := Zeroed(r, Tbl(s, p), k);
    forall q: Place, i: Idx | Tbl(t, q) != 0 && t.tab[Tbl(t, q)][i].v
      ensures Tbl(t, q) == Tbl(s, q) && t.tab[Tbl(t, q)][i] == s.tab[Tbl(s, q)][i]
    {
      CutTbl(s, r, p, k, q);
      OutsidePage(s, r, p, k, q);
    }
    hide Tbl;
  }

  /** Entry k held a table, whose subtree has been freed. */
  lemma PruneChild(s0: State, s: State, r: State, p: Place, k: Idx)
    requires Pruned(s0, s, p, k) && Tbl(s0, p) != 0 && CanCut(s, r, p, k)
    ensures Pruned(s0, Zeroed(r, Tbl(s0, p), k), p, k + 1)
  {
    hide Frees, Untouched, Released, Owned, Shaped;
    var t := Zeroed(r, Tbl(s0, p), k);
    NotBefore(p, k);
    assert Tbl(s, p) == Tbl(s0, p);
    CutOwned(s, r, p, k);
    CutShaped(s, r, p, k);
    forall q: Place ensures Tbl(t, q) == if In(q, Before(p, k + 1)) then 0 else Tbl(s0, q) {
      CutTbl(s, r, p, k, q);
      PartStep(q, p, k);
    }
    ReleasedChain(s0, s, r, p, k);
    UntouchedChain(s0, s, r, p, k);
    ReleasedFrees(s0, t, Before(p, k + 1));
  }

  lemma NotBefore(p: Place, k: nat)
    ensures !In(p, Before(p, k)) && !In(Root, Before(p, k))
  {
  }

  lemma ReleasedFrees(s0: State, s: State, part: Part)
    requires Released(s0, s, part)
    ensures s.root == s0.root && Frees(s.free, s.owner)
  {
  }

  lemma ReleasedChain(s0: State, s: State, r: State, p: Place, k: Idx)
    requires Released(s0, s, Before(p, k)) && !p.Last? && Released(s, r, Whole(Below(p, k))) && Sized(r)
    ensures forall t: Pa :: Released(s0, Zeroed(r, t, k), Before(p, k + 1))
  {
    forall q: Place ensures In(q, Before(p, k + 1)) <==> In(q, Before(p, k)) || In(q, Whole(Below(p, k))) {
      PartStep(q, p, k);
    }
    hide In, Frees;
    assert forall b :: b in s.owner ==> s.owner[b] == s0.owner[b];
  }

  lemma UntouchedChain(s0: State, s: State, r: State, p: Place, k: Idx)
    requires Sized(s0) && Released(s0, s, Before(p, k)) && !p.Last? && Sized(s) && Sized(r)
    requires Untouched(s0, s, Before(p, k), Tbl(s0, p), k) && Untouched(s, r, Whole(Below(p, k)), 0, 0)
    ensures Untouched(s0, Zeroed(r, Tbl(s0, p), k), Before(p, k + 1), Tbl(s0, p), k + 1)
  {
  }

  /** kfree of table page t, which is then overwritten. */
  function Freed(s: State, t: Pa, junk: Table): State
    requires Sized(s)
  {
    s.(tab := s.tab[t := junk], free := [t] + s.free, owner := s.owner - {t})
  }

  /** When every entry has been handled, freeing the table itself removes the
      whole subtree. */
  lemma PruneDone(s0: State, s: State, p: Place, junk: Table)
    requires Pruned(s0, s, p, ENTRIES) && Tbl(s0, p) != 0
    ensures Removed(s0, Freed(s, Tbl(s0, p), junk), p)
  {
    hide Owned, Shaped, Frees, Released, Untouched;
    OwnPlace(s0, p);
    NotBefore(p, ENTRIES);
    forall q: Place ensures In(q, Before(p, ENTRIES)) <==> In(q, Whole(p)) && q != p {
      PartStep(q, p, 0);
    }
    SelfIn(p);
    DoneReleased(s0, s, p, Tbl(s0, p), junk);
    DoneUntouched(s0, s, p, Tbl(s0, p), junk);
  }

  lemma OwnPlace(s: State, p: Place)
    requires Inv(s) && Tbl(s, p) != 0
    ensures Tbl(s, p) in s.owner && s.owner[Tbl(s, p)] == p
    ensures forall b :: b in s.owner && s.owner[b] == p ==> b == Tbl(s, p)
  {
  }

  lemma DoneReleased(s0: State, s: State, p: Place, t: Pa, junk: Table)
    requires Sized(s) && Released(s0, s, Before(p, ENTRIES)) && t != 0
    requires t in s0.owner && s0.owner[t] == p && forall b :: b in s0.owner && s0.owner[b] == p ==> b == t
    requires forall q: Place :: In(q, Before(p, ENTRIES)) <==> In(q, Whole(p)) && q != p
    requires In(p, Whole(p))
    ensures Released(s0, Freed(s, t, junk), Whole(p))
  {
    hide In, Frees;
    FreedFrees(s, t);
  }

  lemma DoneUntouched(s0: State, s: State, p: Place, t: Pa, junk: Table)
    requires Sized(s0) && Sized(s) && Untouched(s0, s, Before(p, ENTRIES), t, ENTRIES)
    requires t in s0.owner && s0.owner[t] == p
    requires forall q: Place :: In(q, Before(p, ENTRIES)) <==> In(q, Whole(p)) && q != p
    requires In(p, Whole(p))
    ensures Untouched(s0, Freed(s, t, junk), Whole(p), 0, 0)
  {
  }

  lemma SelfIn(p: Place)
    ensures In(p, Whole(p))
  {
  }

  lemma FreedFrees(s: State, t: Pa)
    requires Frees(s.free, s.owner) && t in s.owner && t != 0
    ensures Frees([t] + s.free, s.owner - {t})
    ensures |[t] + s.free| + |s.owner - {t}| == |s.free| + |s.owner|
  {
  }

  // ---- leaves ----

  /** Page number n is mapped through the subtree at p. */
  ghost predicate LeafUnder(s: State, p: Place)
    requires Sized(s)
  {
    exists n: nat :: n < VPNS && In(LastOf(n), Whole(p)) && Flat(s, n).v
  }

  /** Page number n is reached from p through an entry before k. */
  predicate Passed(n: nat, p: Place, k: nat)
    requires n < VPNS
  {
    if p.Last? then LastOf(n) == p && n % ENTRIES < k else In(LastOf(n), Before(p, k))
  }

  ghost predicate NoneMapped(s: State, p: Place, k: nat)
    requires Sized(s)
  {
    forall n: nat :: n < VPNS && Passed(n, p, k) ==> !Flat(s, n).v
  }

  lemma NoneDone(s: State, p: Place)
    requires Sized(s) && NoneMapped(s, p, ENTRIES)
    ensures !LeafUnder(s, p)
  {
  }

  /** The page number with the given three indices. */
  lemma Number(i: Idx, j: Idx, k: Idx) returns (n: nat)
    ensures n < VPNS && LastOf(n) == Last(i, j) && n % ENTRIES == k
  {
    n := (i * ENTRIES + j) * ENTRIES + k;
    assert n / ENTRIES == i * ENTRIES + j;
  }

  /** What entry k of an upper table says about the place below. */
  lemma EntryBelow(s: State, p: Place, k: Idx)
    requires Inv(s) && Tbl(s, p) != 0
    ensures !p.Last? ==> Child(s.tab[Tbl(s, p)][k]) == Tbl(s, Below(p, k))
    ensures s.tab[Tbl(s, p)][k].v ==> (s.tab[Tbl(s, p)][k].Leaf() <==> p.Last?)
    ensures !p.Last? && s.tab[Tbl(s, p)][k].v ==> Tbl(s, Below(p, k)) != 0
  {
  }

  /** No leaf behind entry k extends the search by one entry. */
  lemma NoneStep(s0: State, p: Place, k: Idx)
    requires Sized(s0) && NoneMapped(s0, p, k)
    requires !p.Last? ==> !LeafUnder(s0, Below(p, k))
    requires p.Last? && Tbl(s0, p) != 0 ==> !s0.tab[Tbl(s0, p)][k].v
    ensures NoneMapped(s0, p, k + 1)
  {
  }

  /** A subtree's leaves are judged the same before and after its elder
      siblings have been freed. */
  lemma LeafSame(s0: State, s: State, p: Place, k: Idx)
    requires Pruned(s0, s, p, k) && !p.Last?
    ensures LeafUnder(s, Below(p, k)) <==> LeafUnder(s0, Below(p, k))
    ensures LeafUnder(s0, Below(p, k)) ==> LeafUnder(s0, p)
  {
    forall n: nat | n < VPNS && In(LastOf(n), Whole(Below(p, k)))
      ensures Flat(s, n) == Flat(s0, n) && In(LastOf(n), Whole(p))
    {
      FlatSame(s0, s, p, k, n);
    }
    hide Flat, In;
  }

  lemma FlatSame(s0: State, s: State, p: Place, k: Idx, n: nat)
    requires Pruned(s0, s, p, k) && !p.Last? && n < VPNS && In(LastOf(n), Whole(Below(p, k)))
    ensures Flat(s, n) == Flat(s0, n) && In(LastOf(n), Whole(p))
  {
  }

  lemma NoTableNoLeaf(s: State, p: Place)
    requires Inv(s) && Tbl(s, p) == 0
    ensures !LeafUnder(s, p)
  {
  }
}
