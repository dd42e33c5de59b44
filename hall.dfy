/** What the home page and the hall map share: the row filter, the
    "free in" countdown of an occupied or booked workstation
    (`getPCFreeTime`, written out identically on both pages), the session
    price, and the three store calls both booking dialogs make. */
module Hall {
  import opened Wrappers
  import opened Model
  import opened Clock
  import opened Seqs
  import opened Derivation
  import opened AppStore

  /** The workstations of one hall row, in list order. */
  function InRow(pcs: seq<PC>, row: int): (r: seq<PC>)
    ensures forall pc :: pc in r <==> pc in pcs && pc.row == row
  {
    Filter((pc: PC) => pc.row == row, pcs)
  }

  // ---------------------------------------------------------------------
  // getPCFreeTime

  /** A booking `getPCFreeTime` counts: for this workstation, with a start and
      a non-zero length, and ending after `now`. Completed bookings are not
      excluded here (the derivation's `Live` excludes them). */
  predicate Holding(b: Booking, pcId: int, now: int)
  {
    b.pcId == pcId && Scheduled(b) && EndOf(b) > now
  }

  function Holds(pcId: int, now: int): Booking -> bool
  {
    (b: Booking) => Holding(b, pcId, now)
  }

  function HoldingFor(bookings: seq<Booking>, pcId: int, now: int): (r: seq<Booking>)
    ensures forall b :: b in r <==> b in bookings && Holding(b, pcId, now)
    ensures forall j :: 0 <= j < |r| ==> r[j].date.Some?
  {
    var r := Filter(Holds(pcId, now), bookings);
    assert forall j :: 0 <= j < |r| ==> r[j] in r;
    r
  }

  /** The booking the stable sort puts first comes, in the list, before every
      other holding booking with the same start. */
  lemma EarliestHolderFirst(bookings: seq<Booking>, pcId: int, now: int)
    requires |HoldingFor(bookings, pcId, now)| > 0
    ensures var held := HoldingFor(bookings, pcId, now);
            var next := held[EarliestIndex(held)];
            exists i :: 0 <= i < |bookings| && bookings[i] == next
                        && forall j :: 0 <= j < i && Holding(bookings[j], pcId, now) ==>
                             StartOf(bookings[j]) > StartOf(next)
  {
    var held := HoldingFor(bookings, pcId, now);
    var k := EarliestIndex(held);
    var next := held[k];
    assert next in held;
    var w :| 0 <= w < |bookings| && bookings[w] == next;
    var first := FindIndex((b: Booking) => b == next, bookings);
    assert first.Some? by {
      assert ((b: Booking) => b == next)(bookings[w]);
    }
    var i := first.value;
    forall j | 0 <= j < i && Holding(bookings[j], pcId, now)
      ensures StartOf(bookings[j]) > StartOf(next)
    {
      FilterKeepsOrder(Holds(pcId, now), bookings, i, j, k);
    }
  }

  /** When the workstation frees up and how the page shows it: `shown` is the
      countdown to `end`; when it is `Imminent` the page prints `end` as a
      clock time instead. */
  datatype FreeTime = FreeTime(end: int, shown: Countdown)

  /** Nothing for an `available` workstation or one no booking holds;
      otherwise the end of the earliest-starting booking that holds it. */
  function PCFreeTime(pc: PC, bookings: seq<Booking>, now: int): (r: Option<FreeTime>)
    ensures r.None? <==> pc.status == Available || forall b :: b in bookings ==> !Holding(b, pc.id, now)
    ensures r.Some? ==> r.value.end > now && r.value.shown == CountdownOf(r.value.end - now)
    ensures r.Some? ==>
              exists i :: 0 <= i < |bookings| && Holding(bookings[i], pc.id, now) && EndOf(bookings[i]) == r.value.end
                          && (forall c :: c in bookings && Holding(c, pc.id, now) ==> StartOf(bookings[i]) <= StartOf(c))
                          && (forall j :: 0 <= j < i && Holding(bookings[j], pc.id, now) ==>
                                StartOf(bookings[j]) > StartOf(bookings[i]))
  {
    if pc.status == Available then None
    else
      var held := HoldingFor(bookings, pc.id, now);
      if |held| == 0 then None
      else
        var k := EarliestIndex(held);
        var next := held[k];
        assert next in held;
        assert forall c :: c in bookings && Holding(c, pc.id, now) ==> StartOf(next) <= StartOf(c) by {
          forall c | c in bookings && Holding(c, pc.id, now) ensures StartOf(next) <= StartOf(c) {
            assert c in held;
            var m :| 0 <= m < |held| && held[m] == c;
          }
        }
        EarliestHolderFirst(bookings, pc.id, now);
        Some(FreeTime(EndOf(next), CountdownOf(EndOf(next) - now)))
  }

  /** A workstation the derivation marks busy because of a live booking
      always has a free time to show. */
  lemma LiveBookingShowsFreeTime(pc: PC, bookings: seq<Booking>, now: int)
    requires HasLive(bookings, pc.id, now)
    ensures DerivePC(pc, bookings, now).status != Available
    ensures PCFreeTime(DerivePC(pc, bookings, now), bookings, now).Some?
  {
    DerivePCStatus(pc, bookings, now);
    var j :| 0 <= j < |bookings| && Live(bookings[j], pc.id, now);
    assert Holding(bookings[j], pc.id, now);
  }

  // ---------------------------------------------------------------------
  // Booking from a page

  /** `selectedPC ? selectedPC.pricePerHour * duration : 0`. */
  function SessionPrice(selected: Option<PC>, duration: int): (r: int)
    ensures selected.None? ==> r == 0
    ensures selected.Some? && selected.value.pricePerHour >= 0 && duration >= 0 ==> r >= 0
  {
    if selected.Some? then selected.value.pricePerHour * duration else 0
  }

  /** The state that `addBooking`, then `updatePCStatus(id, 'booked')`, then
      `updateBalance(-price)` leave, as both booking dialogs run them once
      their guards pass: the earlier bookings as the derivation sweeps them,
      the new booking last, the workstation `booked` whatever the derivation
      made of it, every other workstation as derived, the user's progress as
      derived and the balance down by the price (clamped at 0). */
  function Placed(pcs: seq<PC>, bookings: seq<Booking>, user: User, req: BookingRequest,
                  id: int, now: int): (r: Snapshot)
    ensures |r.bookings| == |bookings| + 1
    ensures forall i :: 0 <= i < |bookings| ==> r.bookings[i] == CompleteIfElapsed(bookings[i], now)
    ensures r.bookings[|bookings|] == CompleteIfElapsed(NewBooking(req, id, now), now)
    ensures |r.pcs| == |pcs|
    ensures forall i :: 0 <= i < |pcs| && pcs[i].id == req.pcId ==>
              r.pcs[i] == pcs[i].(status := Booked)
    ensures var d := Derive(pcs, bookings + [NewBooking(req, id, now)], user, now);
            && (forall i :: 0 <= i < |pcs| && pcs[i].id != req.pcId ==> r.pcs[i] == d.pcs[i])
            && r.user == d.user.(balance := Max0(user.balance - req.price))
  {
    var booking := NewBooking(req, id, now);
    var d := Derive(pcs, bookings + [booking], user, now);
    SweepOutcome(pcs, bookings + [booking], user, now);
    Snapshot(WithStatus(d.pcs, req.pcId, Booked, now), d.bookings,
             d.user.(balance := Max0(d.user.balance - req.price)))
  }

  /** The three store calls of a confirmed booking. */
  method PlaceBooking(s: Store, req: BookingRequest, now: int)
    modifies s`bookings, s`pcs, s`user, s`nextId
    ensures var r := Placed(old(s.pcs), old(s.bookings), old(s.user), req, old(s.nextId), now);
            s.pcs == r.pcs && s.bookings == r.bookings && s.user == r.user
    ensures s.nextId == old(s.nextId) + 1
    ensures old(s.Valid()) && req.price >= 0 ==> s.Valid()
  {
    var id := s.AddBooking(req, now);
    s.UpdatePCStatus(req.pcId, Booked, now);
    var _ := s.UpdateBalance(-req.price);
  }
}
