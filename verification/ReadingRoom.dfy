/** The reading room of user/library.c: any number of reader processes share five
    seats through a counting semaphore and a mutex, interleaved at every step.
    sem_p is taken when the value is positive, as module Semaphore proves of it. */
module ReadingRoom {
  import opened Common

  const MAX_SEATS: nat := 5

  datatype Seat = Seat(used: bool, pid: nat)

  /** Where a reader is. Arriving: before P(seats). Admitted: before P(mutex).
      Looking: in the registration loop, at seat i. Seated: registered at slot,
      before V(mutex). Reading: before the second P(mutex). Rising: about to clear
      the seat. Risen: before V(mutex). Leaving: before V(seats). NoSeat: the
      error branch of a reader that found no free seat. */
  datatype Reader = Arriving | Admitted | Looking(i: nat) | Seated(slot: nat) | Reading(slot: nat)
    | Rising(slot: nat) | Risen | Leaving | Gone | NoSeat

  datatype Room = Room(seats: seq<Seat>, count: int, seatSem: int, mutex: int, readers: seq<Reader>)

  function PidOf(r: nat): nat {
    r + 1
  }

  predicate Can(s: Room, r: nat)
    requires r < |s.readers|
  {
    match s.readers[r]
    case Arriving => s.seatSem > 0
    case Admitted => s.mutex > 0
    case Reading(_) => s.mutex > 0
    case Gone => false
    case _ => true
  }

  /** Reader r's next step. */
  function Next(s: Room, r: nat): Room
    requires r < |s.readers| && |s.seats| == MAX_SEATS
  {
    match s.readers[r]
    case Arriving => Move(s, r, Admitted).(seatSem := s.seatSem - 1)
    case Admitted => Move(s, r, Looking(0)).(mutex := s.mutex - 1)
    case Looking(i) =>
      if i >= MAX_SEATS then Move(s, r, NoSeat)
      else if s.seats[i].used then Move(s, r, Looking(i + 1))
      else Move(s, r, Seated(i)).(seats := s.seats[i := Seat(true, PidOf(r))], count := s.count + 1)
    case Seated(i) => Move(s, r, Reading(i)).(mutex := s.mutex + 1)
    case Reading(i) => Move(s, r, Rising(i)).(mutex := s.mutex - 1)
    case Rising(i) =>
      if i < MAX_SEATS then Move(s, r, Risen).(seats := s.seats[i := Seat(false, 0)], count := s.count - 1) else s
    case Risen => Move(s, r, Leaving).(mutex := s.mutex + 1)
    case Leaving => Move(s, r, Gone).(seatSem := s.seatSem + 1)
    case _ => s
  }

  function Move(s: Room, r: nat, x: Reader): Room
    requires r < |s.readers|
  {
    s.(readers := s.readers[r := x])
  }

  predicate HasSlot(x: Reader) {
    x.Seated? || x.Reading? || x.Rising?
  }

  /** Between P(seats) and V(seats). */
  predicate Inside(x: Reader) {
    !x.Arriving? && !x.Gone?
  }

  /** Between P(mutex) and V(mutex). */
  predicate Exclusive(x: Reader) {
    x.Looking? || x.Seated? || x.Rising? || x.Risen? || x.NoSeat?
  }

  function Where(rs: seq<Reader>, p: Reader -> bool): set<nat> {
    set r: nat | r < |rs| && p(rs[r])
  }

  /** Seats and readers agree: a used seat names the one reader that has it. */
  ghost predicate Agree(seats: seq<Seat>, rs: seq<Reader>) {
    && |seats| == MAX_SEATS
    && (forall r: nat :: r < |rs| && HasSlot(rs[r]) ==>
          rs[r].slot < MAX_SEATS && seats[rs[r].slot] == Seat(true, PidOf(r)))
    && (forall i: nat :: i < MAX_SEATS && seats[i].used ==>
          0 < seats[i].pid <= |rs| && HasSlot(rs[seats[i].pid - 1]) && rs[seats[i].pid - 1].slot == i)
  }

  /** A reader still looking has passed only used seats. */
  ghost predicate LookedAt(seats: seq<Seat>, rs: seq<Reader>)
    requires |seats| == MAX_SEATS
  {
    forall r: nat :: r < |rs| && rs[r].Looking? ==>
      rs[r].i <= MAX_SEATS && forall j: nat :: j < rs[r].i ==> seats[j].used
  }

  function UsedSeats(seats: seq<Seat>): set<nat> {
    set i: nat | i < |seats| && seats[i].used
  }

  ghost predicate Inv(s: Room) {
    && Agree(s.seats, s.readers) && LookedAt(s.seats, s.readers)
    && s.count == |UsedSeats(s.seats)|
    && s.seatSem >= 0 && s.seatSem + |Where(s.readers, Inside)| == MAX_SEATS
    && s.mutex >= 0 && s.mutex + |Where(s.readers, Exclusive)| == 1
    && forall r: nat :: r < |s.readers| ==> s.readers[r] != NoSeat
  }

  lemma WhereMove(rs: seq<Reader>, r: nat, x: Reader, p: Reader -> bool)
    requires r < |rs|
    ensures |Where(rs[r := x], p)| ==
            |Where(rs, p)| + (if p(x) then 1 else 0) - (if p(rs[r]) then 1 else 0)
  {
    var a, b := Where(rs, p), Where(rs[r := x], p);
    assert a - {r} == b - {r};
    assert |a - {r}| == |a| - if r in a then 1 else 0;
    assert |b - {r}| == |b| - if r in b then 1 else 0;
  }

  /** Two readers are never in the register at once. */
  lemma AloneInside(s: Room, r: nat, q: nat)
    requires Inv(s) && r < |s.readers| && q < |s.readers| && Exclusive(s.readers[r]) && Exclusive(s.readers[q])
    ensures r == q
  {
    SubsetSize({r, q}, Where(s.readers, Exclusive));
  }

  /** The readers named by the first n seats. */
  function Owners(seats: seq<Seat>, n: nat): set<nat>
    requires n <= |seats|
  {
    if n == 0 then {} else Owners(seats, n - 1) + if seats[n - 1].pid > 0 then {seats[n - 1].pid - 1} else {}
  }

  lemma {:induction false} OwnersCount(seats: seq<Seat>, rs: seq<Reader>, n: nat)
    requires Agree(seats, rs) && n <= MAX_SEATS && forall j: nat :: j < n ==> seats[j].used
    ensures |Owners(seats, n)| == n
    ensures forall r :: r in Owners(seats, n) ==> r < |rs| && HasSlot(rs[r]) && rs[r].slot < n
  {
    if n > 0 {
      OwnersCount(seats, rs, n - 1);
    }
  }

  /** The reader that looks finds a free seat: with all five taken, their five
      owners and he would be six readers inside. */
  lemma SeatFree(s: Room, r: nat)
    requires Inv(s) && r < |s.readers| && s.readers[r].Looking?
    ensures s.readers[r].i < MAX_SEATS
  {
    var n := s.readers[r].i;
    assert |s.seats| == MAX_SEATS;
    hide Owners, Agree, UsedSeats;
    OwnersCount(s.seats, s.readers, n);
    var o := Owners(s.seats, n);
    assert |o + {r}| == n + 1;
    AllInside(s.readers, o, r);
    SubsetSize(o + {r}, Where(s.readers, Inside));
  }

  lemma AllInside(rs: seq<Reader>, o: set<nat>, r: nat)
    requires r < |rs| && Inside(rs[r]) && forall x :: x in o ==> x < |rs| && HasSlot(rs[x])
    ensures o + {r} <= Where(rs, Inside)
  {
  }

  lemma AgreeMove(seats: seq<Seat>, rs: seq<Reader>, r: nat, x: Reader)
    requires Agree(seats, rs) && r < |rs|
    requires HasSlot(x) <==> HasSlot(rs[r])
    requires HasSlot(x) ==> x.slot == rs[r].slot
    ensures Agree(seats, rs[r := x])
  {
  }

  lemma AgreeTake(seats: seq<Seat>, rs: seq<Reader>, r: nat, i: nat)
    requires Agree(seats, rs) && r < |rs| && !HasSlot(rs[r]) && i < MAX_SEATS && !seats[i].used
    ensures Agree(seats[i := Seat(true, PidOf(r))], rs[r := Seated(i)])
  {
  }

  lemma AgreeClear(seats: seq<Seat>, rs: seq<Reader>, r: nat)
    requires Agree(seats, rs) && r < |rs| && rs[r].Rising?
    ensures Agree(seats[rs[r].slot := Seat(false, 0)], rs[r := Risen])
  {
  }

  lemma StepAgree(s: Room, r: nat)
    requires Inv(s) && r < |s.readers| && Can(s, r)
    ensures Agree(Next(s, r).seats, Next(s, r).readers)
  {
    hide LookedAt, Where, UsedSeats, Agree;
    AgreeSize(s.seats, s.readers, r);
    var x := s.readers[r];
    if x.Rising? {
      AgreeClear(s.seats, s.readers, r);
    } else if x.Looking? && x.i < MAX_SEATS && !s.seats[x.i].used {
      AgreeTake(s.seats, s.readers, r, x.i);
    } else {
      AgreeMove(s.seats, s.readers, r, Next(s, r).readers[r]);
      assert Next(s, r).readers == s.readers[r := Next(s, r).readers[r]];
    }
  }

  lemma AgreeSize(seats: seq<Seat>, rs: seq<Reader>, r: nat)
    requires Agree(seats, rs) && r < |rs|
    ensures |seats| == MAX_SEATS && (HasSlot(rs[r]) ==> rs[r].slot < MAX_SEATS)
  {
  }

  lemma StepLooked(s: Room, r: nat)
    requires Inv(s) && r < |s.readers| && Can(s, r)
    ensures |Next(s, r).seats| == MAX_SEATS && LookedAt(Next(s, r).seats, Next(s, r).readers)
    ensures forall q: nat :: q < |s.readers| ==> Next(s, r).readers[q] != NoSeat
  {
    if s.readers[r].Looking? {
      SeatFree(s, r);
    }
    if s.readers[r].Rising? {
      forall q: nat | q < |s.readers| && s.readers[q].Looking? ensures q == r {
        AloneInside(s, r, q);
      }
    }
    hide Where, UsedSeats;
  }

  lemma StepSems(s: Room, r: nat)
    requires Inv(s) && r < |s.readers| && Can(s, r)
    ensures var t := Next(s, r);
      && t.seatSem >= 0 && t.seatSem + |Where(t.readers, Inside)| == MAX_SEATS
      && t.mutex >= 0 && t.mutex + |Where(t.readers, Exclusive)| == 1
  {
    var t := Next(s, r);
    if s.readers[r].Looking? {
      SeatFree(s, r);
    }
    hide Where, UsedSeats, LookedAt;
    WhereMove(s.readers, r, t.readers[r], Inside);
    WhereMove(s.readers, r, t.readers[r], Exclusive);
    assert t.readers == s.readers[r := t.readers[r]];
  }

  lemma StepCount(s: Room, r: nat)
    requires Inv(s) && r < |s.readers| && Can(s, r)
    ensures Next(s, r).count == |UsedSeats(Next(s, r).seats)|
  {
    hide Where, LookedAt;
    var t := Next(s, r);
    if s.readers[r].Looking? && s.readers[r].i < MAX_SEATS && !s.seats[s.readers[r].i].used {
      assert UsedSeats(t.seats) == UsedSeats(s.seats) + {s.readers[r].i};
    } else if s.readers[r].Rising? {
      assert UsedSeats(t.seats) == UsedSeats(s.seats) - {s.readers[r].slot};
    }
  }

  // ---- runs ----

  ghost predicate Run(s: Room, who: seq<nat>, t: Room)
    decreases |who|
  {
    if who == [] then t == s
    else |s.seats| == MAX_SEATS && who[0] < |s.readers| && Can(s, who[0]) && Run(Next(s, who[0]), who[1..], t)
  }

  /** The library as it is opened, with n readers on their way. */
  function Opened(n: nat): Room {
    Room(seq(MAX_SEATS, _ => Seat(false, 0)), 0, MAX_SEATS, 1, seq(n, _ => Arriving))
  }

  lemma OpenedInv(n: nat)
    ensures Inv(Opened(n))
  {
  }

  lemma {:induction false} RunInv(s: Room, who: seq<nat>, t: Room)
    requires Inv(s) && Run(s, who, t)
    ensures Inv(t)
    decreases |who|
  {
    if who != [] {
      StepAgree(s, who[0]);
      StepLooked(s, who[0]);
      StepSems(s, who[0]);
      StepCount(s, who[0]);
      RunInv(Next(s, who[0]), who[1..], t);
    }
  }

  /** For any number of readers and any interleaving: a reader that passed both
      P operations always finds a free seat, no seat has two owners, and the
      reader count is the number of used seats, at most MAX_SEATS. */
  lemma RoomSafe(n: nat, who: seq<nat>, t: Room)
    requires Run(Opened(n), who, t)
    ensures |t.seats| == MAX_SEATS && t.count == |UsedSeats(t.seats)| <= MAX_SEATS
    ensures forall r: nat :: r < |t.readers| ==> !t.readers[r].NoSeat?
    ensures forall r: nat :: r < |t.readers| && t.readers[r].Looking? ==> t.readers[r].i < MAX_SEATS
    ensures forall r: nat, q: nat :: r < q < |t.readers| && HasSlot(t.readers[r]) && HasSlot(t.readers[q]) ==>
              t.readers[r].slot != t.readers[q].slot
  {
    OpenedInv(n);
    RunInv(Opened(n), who, t);
    SubsetSize(UsedSeats(t.seats), {0, 1, 2, 3, 4});
    forall r: nat | r < |t.readers| && t.readers[r].Looking? ensures t.readers[r].i < MAX_SEATS {
      SeatFree(t, r);
    }
  }
}
