/** The booking page for one workstation: a day, an `HH:00` start from the
    24 offered labels and a length of 1 to 6 hours. `dayStart` is local
    midnight of the chosen day. */
module BookingPage {
  import opened Wrappers
  import opened Model
  import opened Clock
  import opened Format
  import opened Derivation
  import opened AppStore
  import opened Hall
  import opened HallMap

  /** `timeSlots`: "00:00" to "23:00". */
  function TimeLabels(): (r: seq<string>)
    ensures |r| == 24
  {
    seq(24, i requires 0 <= i < 24 => HourLabel(i))
  }

  /** Every offered label reads back as its own hour, so all 24 differ. */
  lemma TimeLabelsReadBack()
    ensures forall i :: 0 <= i < 24 ==> ParseHour(TimeLabels()[i]) == Some(i)
    ensures forall i, j :: 0 <= i < j < 24 ==> TimeLabels()[i] != TimeLabels()[j]
  {
    forall i | 0 <= i < 24 ensures ParseHour(TimeLabels()[i]) == Some(i) {
      ParseHourLabel(i);
    }
  }

  const Durations: seq<int> := [1, 2, 3, 4, 5, 6]

  /** `canBook`: the balance covers the price, the workstation is
      `available`, and a time is chosen. */
  predicate CanBook(balance: int, selected: Option<PC>, duration: int, time: string)
  {
    balance >= SessionPrice(selected, duration) && selected.Some? && selected.value.status == Available
    && time != ""
  }

  /** The booking page accepts exactly the workstations the hall map sends
      to it, given the funds for the price and a chosen time. */
  lemma CanBookFromMap(balance: int, pc: PC, duration: int, time: string)
    ensures CanBook(balance, Some(pc), duration, time) <==>
              HandlePCClick(pc).GoToBooking? && balance >= pc.pricePerHour * duration && time != ""
  {
  }

  /** The chosen day at the hour `parseInt` reads before the `:`; nothing when
      no hour can be read (the page would throw before touching the store). */
  function StartInstant(dayStart: int, time: string): (r: Option<int>)
    ensures r.Some? <==> ParseHour(time).Some?
    ensures r.Some? ==> r.value == dayStart + ParseHour(time).value * MsPerHour
  {
    match ParseHour(time)
    case None => None
    case Some(h) => Some(dayStart + h * MsPerHour)
  }

  /** An offered time starts on the chosen day, at that hour sharp. */
  lemma OfferedTimeStart(dayStart: int, h: int)
    requires 0 <= h < 24
    ensures var r := StartInstant(dayStart, TimeLabels()[h]);
            r == Some(dayStart + h * MsPerHour) && dayStart <= r.value < dayStart + MsPerDay
  {
    ParseHourLabel(h);
  }

  datatype BookingOutcome = Reserved | NotAllowed | UnreadableTime

  /** `handleBooking`: no overlap or past-time check; books the start,
      forces the workstation to `booked` and debits the price. */
  method HandleBooking(s: Store, selected: Option<PC>, duration: nat, dayStart: int, time: string, now: int)
    returns (outcome: BookingOutcome)
    modifies s`bookings, s`pcs, s`user, s`nextId
    ensures outcome == NotAllowed <==> !CanBook(old(s.user.balance), selected, duration, time)
    ensures outcome == UnreadableTime <==>
              CanBook(old(s.user.balance), selected, duration, time) && StartInstant(dayStart, time).None?
    ensures !outcome.Reserved? ==>
              s.bookings == old(s.bookings) && s.pcs == old(s.pcs) && s.user == old(s.user)
              && s.nextId == old(s.nextId)
    ensures outcome.Reserved? ==>
              var pc := selected.value;
              var price := SessionPrice(selected, duration);
              var req := BookingRequest(pc.id, pc.name, StartInstant(dayStart, time), duration, price);
              var r := Placed(old(s.pcs), old(s.bookings), old(s.user), req, old(s.nextId), now);
              && s.pcs == r.pcs && s.bookings == r.bookings && s.user == r.user
              && s.nextId == old(s.nextId) + 1
              && s.user.balance == old(s.user.balance) - price
    ensures old(s.Valid()) && SessionPrice(selected, duration) >= 0 ==> s.Valid()
  {
    if !CanBook(s.user.balance, selected, duration, time) {
      return NotAllowed;
    }
    var start := StartInstant(dayStart, time);
    if start.None? {
      return UnreadableTime;
    }
    var pc := selected.value;
    var price := SessionPrice(selected, duration);
    PlaceBooking(s, BookingRequest(pc.id, pc.name, start, duration, price), now);
    outcome := Reserved;
  }
}
