/** The home page: the next 24 bookable hour slots, which of them a
    workstation is free for, the "next free in" hint, the first three grid
    rows and the booking dialog's confirm action. `today` is local midnight
    and `currentHour` the local hour of `now`; a day is 24 hours. */
module Home {
  import opened Wrappers
  import opened Model
  import opened Clock
  import opened Format
  import opened Seqs
  import opened Derivation
  import opened AppStore
  import opened Hall

  /** One offered slot: its `HH:00` label, the midnight of its day, its hour. */
  datatype Slot = Slot(time: string, date: int, hour: int, isToday: bool)

  function SlotStart(s: Slot): int
  {
    s.date + s.hour * MsPerHour
  }

  const SlotCount := 24

  /** The `k`-th slot offered: hour `currentHour + 1 + k` counted from today's
      midnight, labelled and dated on the day it falls in. */
  function SlotAt(today: int, currentHour: int, k: int): (s: Slot)
    requires 0 <= currentHour < 24 && 0 <= k < SlotCount
    ensures SlotStart(s) == today + (currentHour + 1 + k) * MsPerHour
    ensures 0 <= s.hour < 24 && s.time == HourLabel(s.hour)
    ensures s.isToday <==> currentHour + 1 + k < 24
  {
    var h := currentHour + 1 + k;
    if h < 24 then Slot(HourLabel(h), today, h, true)
    else Slot(HourLabel(h - 24), today + MsPerDay, h - 24, false)
  }

  /** `generateTimeSlots`: today's remaining hours, then tomorrow's, cut to 24. */
  method GenerateTimeSlots(today: int, currentHour: int) returns (slots: seq<Slot>)
    requires 0 <= currentHour < 24
    ensures |slots| == SlotCount
    ensures forall k :: 0 <= k < SlotCount ==> slots[k] == SlotAt(today, currentHour, k)
  {
    var all: seq<Slot> := [];
    var i := currentHour + 1;
    while i < 24
      invariant currentHour + 1 <= i <= 24
      invariant |all| == i - currentHour - 1
      invariant forall k :: 0 <= k < |all| ==> all[k] == SlotAt(today, currentHour, k)
    {
      all := all + [Slot(HourLabel(i), today, i, true)];
      i := i + 1;
    }
    var tomorrow := today + MsPerDay;
    i := 0;
    while i < 24
      invariant 0 <= i <= 24
      invariant |all| == 23 - currentHour + i
      invariant forall k :: 0 <= k < |all| && k < SlotCount ==> all[k] == SlotAt(today, currentHour, k)
    {
      all := all + [Slot(HourLabel(i), tomorrow, i, false)];
      i := i + 1;
    }
    slots := all[..SlotCount];
  }

  /** Later slots start later, and no two slots share a label. */
  lemma SlotsOrderedAndDistinct(today: int, currentHour: int, j: int, k: int)
    requires 0 <= currentHour < 24 && 0 <= j < k < SlotCount
    ensures SlotStart(SlotAt(today, currentHour, j)) < SlotStart(SlotAt(today, currentHour, k))
    ensures SlotAt(today, currentHour, j).time != SlotAt(today, currentHour, k).time
  {
    var a := SlotAt(today, currentHour, j);
    var b := SlotAt(today, currentHour, k);
    assert a.hour != b.hour by {
      assert a.hour == currentHour + 1 + j || a.hour == currentHour + 1 + j - 24;
      assert b.hour == currentHour + 1 + k || b.hour == currentHour + 1 + k - 24;
    }
    HourLabelInjective(a.hour, b.hour);
  }

  predicate DistinctLabels(slots: seq<Slot>)
  {
    forall j, k :: 0 <= j < k < |slots| ==> slots[j].time != slots[k].time
  }

  /** The generated slots carry 24 different labels. */
  lemma GeneratedLabelsDistinct(today: int, currentHour: int, slots: seq<Slot>)
    requires 0 <= currentHour < 24
    requires |slots| == SlotCount
    requires forall k :: 0 <= k < SlotCount ==> slots[k] == SlotAt(today, currentHour, k)
    ensures DistinctLabels(slots)
  {
    forall j, k | 0 <= j < k < |slots| ensures slots[j].time != slots[k].time {
      SlotsOrderedAndDistinct(today, currentHour, j, k);
    }
  }

  // ---------------------------------------------------------------------
  // getTimeSlotAvailability

  /** `new Date(b.date) > new Date()` for the selected workstation: only
      bookings still to start are checked (completed or running ones are not). */
  predicate Pending(b: Booking, pcId: int, now: int)
  {
    b.pcId == pcId && b.date.Some? && b.date.value > now
  }

  /** The strict interval test `slotStart < bookingEnd && slotEnd > bookingStart`. */
  predicate Overlaps(start1: int, end1: int, start2: int, end2: int)
  {
    start1 < end2 && end1 > start2
  }

  predicate Within(t: int, start: int, end: int)
  {
    start <= t < end
  }

  /** For non-empty half-open intervals the test means they share an instant. */
  lemma OverlapsMeansSharedInstant(start1: int, end1: int, start2: int, end2: int)
    requires start1 < end1 && start2 < end2
    ensures Overlaps(start1, end1, start2, end2) <==>
            exists t :: Within(t, start1, end1) && Within(t, start2, end2)
  {
    if Overlaps(start1, end1, start2, end2) {
      var t := if start1 < start2 then start2 else start1;
      assert Within(t, start1, end1) && Within(t, start2, end2);
    }
  }

  /** A slot is free for `duration` hours when it overlaps no pending booking. */
  predicate SlotFree(slot: Slot, bookings: seq<Booking>, pcId: int, duration: nat, now: int)
  {
    forall b :: b in bookings && Pending(b, pcId, now) ==>
      !Overlaps(SlotStart(slot), SlotStart(slot) + duration * MsPerHour, b.date.value, EndOf(b))
  }

  /** Slot `k` is the last one with its label (the one whose entry stays). */
  predicate LastWithLabel(slots: seq<Slot>, k: int)
    requires 0 <= k < |slots|
  {
    forall j :: k < j < |slots| ==> slots[j].time != slots[k].time
  }

  /** The `availability` object: one entry per label, holding the verdict of
      the last slot written under it. */
  predicate Describes(availability: map<string, bool>, slots: seq<Slot>, bookings: seq<Booking>,
                      pcId: int, duration: nat, now: int)
  {
    && availability.Keys == (set k | 0 <= k < |slots| :: slots[k].time)
    && forall k :: 0 <= k < |slots| && LastWithLabel(slots, k) ==>
         availability[slots[k].time] == SlotFree(slots[k], bookings, pcId, duration, now)
  }

  method TimeSlotAvailability(selected: Option<PC>, slots: seq<Slot>, bookings: seq<Booking>,
                              duration: nat, now: int)
    returns (availability: map<string, bool>)
    ensures selected.None? ==> availability == map[]
    ensures selected.Some? ==> Describes(availability, slots, bookings, selected.value.id, duration, now)
  {
    availability := map[];
    if selected.None? {
      return;
    }
    var pcId := selected.value.id;
    var i := 0;
    while i < |slots|
      invariant 0 <= i <= |slots|
      invariant availability.Keys == (set k | 0 <= k < i :: slots[k].time)
      invariant forall k :: 0 <= k < i && (forall j :: k < j < i ==> slots[j].time != slots[k].time) ==>
                  availability[slots[k].time] == SlotFree(slots[k], bookings, pcId, duration, now)
    {
      availability := availability[slots[i].time := SlotFree(slots[i], bookings, pcId, duration, now)];
      i := i + 1;
    }
  }

  /** `Object.values(availability).every(avail => !avail)`; vacuously true
      when no workstation is selected. */
  predicate DayFullyBooked(availability: map<string, bool>)
  {
    forall t :: t in availability ==> !availability[t]
  }

  /** With distinct labels, the day is fully booked exactly when no slot is free. */
  lemma DayFullyBookedIff(availability: map<string, bool>, slots: seq<Slot>, bookings: seq<Booking>,
                          pcId: int, duration: nat, now: int)
    requires Describes(availability, slots, bookings, pcId, duration, now)
    requires DistinctLabels(slots)
    ensures DayFullyBooked(availability) <==>
            forall k :: 0 <= k < |slots| ==> !SlotFree(slots[k], bookings, pcId, duration, now)
  {
    forall k | 0 <= k < |slots| ensures LastWithLabel(slots, k) && slots[k].time in availability {
      assert slots[k].time in (set m | 0 <= m < |slots| :: slots[m].time);
    }
    if forall k :: 0 <= k < |slots| ==> !SlotFree(slots[k], bookings, pcId, duration, now) {
      forall t | t in availability ensures !availability[t] {
        var k :| 0 <= k < |slots| && slots[k].time == t;
      }
    }
  }

  /** `availability[slot.time]` is truthy. */
  predicate Open(availability: map<string, bool>, time: string)
  {
    time in availability && availability[time]
  }

  /** `getNextAvailableTime`: the countdown to the first open slot in slot
      order (`Imminent` prints as "now"), or nothing. */
  method NextAvailableTime(slots: seq<Slot>, availability: map<string, bool>, now: int)
    returns (next: Option<Countdown>)
    ensures next.None? <==> forall k :: 0 <= k < |slots| ==> !Open(availability, slots[k].time)
    ensures next.Some? ==>
              exists k :: 0 <= k < |slots| && Open(availability, slots[k].time)
                          && (forall j :: 0 <= j < k ==> !Open(availability, slots[j].time))
                          && next.value == CountdownOf(SlotStart(slots[k]) - now)
  {
    var i := 0;
    while i < |slots|
      invariant 0 <= i <= |slots|
      invariant forall j :: 0 <= j < i ==> !Open(availability, slots[j].time)
    {
      if Open(availability, slots[i].time) {
        next := Some(CountdownOf(SlotStart(slots[i]) - now));
        return;
      }
      i := i + 1;
    }
    next := None;
  }

  // ---------------------------------------------------------------------
  // The grid and the dialog

  function ColOf(pc: PC): int
  {
    pc.col
  }

  /** One row of `pcsByRow`: the row's workstations sorted by column. */
  function HomeRow(pcs: seq<PC>, row: int): (r: seq<PC>)
    ensures SortedBy(ColOf, r)
    ensures multiset(r) == multiset(InRow(pcs, row))
    ensures forall pc :: pc in r <==> pc in pcs && pc.row == row
  {
    var r := SortBy(ColOf, InRow(pcs, row));
    assert forall pc :: pc in r <==> pc in multiset(r);
    assert forall pc :: pc in InRow(pcs, row) <==> pc in multiset(InRow(pcs, row));
    r
  }

  /** `pcsByRow`: rows 1 to 3, in order, each as `HomeRow` describes it. */
  function HomeRows(pcs: seq<PC>): seq<seq<PC>>
  {
    seq(3, i requires 0 <= i < 3 => HomeRow(pcs, i + 1))
  }

  /** `canBook`: a workstation, a chosen time that is open, and the balance
      for the price. */
  predicate CanBook(selected: Option<PC>, time: string, duration: int, balance: int,
                    availability: map<string, bool>)
  {
    selected.Some? && time != "" && balance >= SessionPrice(selected, duration) && Open(availability, time)
  }

  function SlotWithLabel(slots: seq<Slot>, time: string): (r: Option<nat>)
    ensures r.Some? ==> r.value < |slots| && slots[r.value].time == time
    ensures r.None? <==> forall k :: 0 <= k < |slots| ==> slots[k].time != time
  {
    FindIndex((s: Slot) => s.time == time, slots)
  }

  /** The confirm handler's own test: a workstation, a time, a slot with that
      label and the balance for the price; availability is not rechecked. */
  predicate ConfirmGuard(selected: Option<PC>, time: string, duration: int, slots: seq<Slot>, balance: int)
  {
    selected.Some? && time != "" && SlotWithLabel(slots, time).Some?
    && balance >= SessionPrice(selected, duration)
  }

  /** Whenever `canBook` enables the confirm button for the availability of
      the offered slots, the handler books. */
  lemma CanBookConfirms(selected: Option<PC>, time: string, duration: nat, balance: int,
                        availability: map<string, bool>, slots: seq<Slot>, bookings: seq<Booking>, now: int)
    requires selected.Some?
    requires Describes(availability, slots, bookings, selected.value.id, duration, now)
    requires CanBook(selected, time, duration, balance, availability)
    ensures ConfirmGuard(selected, time, duration, slots, balance)
  {
    assert time in availability.Keys;
    var k :| 0 <= k < |slots| && slots[k].time == time;
  }

  /** `handleConfirmBooking`: needs a workstation, a time, a slot with that
      label and the balance for the price (not the slot's availability); then
      books the slot's start through the three store calls. */
  method HandleConfirmBooking(s: Store, selected: Option<PC>, time: string, duration: nat,
                              slots: seq<Slot>, now: int)
    returns (booked: bool)
    modifies s`bookings, s`pcs, s`user, s`nextId
    ensures booked <==> ConfirmGuard(selected, time, duration, slots, old(s.user.balance))
    ensures !booked ==>
              s.bookings == old(s.bookings) && s.pcs == old(s.pcs) && s.user == old(s.user)
              && s.nextId == old(s.nextId)
    ensures booked ==>
              var pc := selected.value;
              var start := SlotStart(slots[SlotWithLabel(slots, time).value]);
              var req := BookingRequest(pc.id, pc.name, Some(start), duration, SessionPrice(selected, duration));
              var r := Placed(old(s.pcs), old(s.bookings), old(s.user), req, old(s.nextId), now);
              && s.pcs == r.pcs && s.bookings == r.bookings && s.user == r.user
              && s.nextId == old(s.nextId) + 1
              && s.user.balance == old(s.user.balance) - SessionPrice(selected, duration)
    ensures old(s.Valid()) && SessionPrice(selected, duration) >= 0 ==> s.Valid()
  {
    if selected.None? || time == "" {
      return false;
    }
    var k := SlotWithLabel(slots, time);
    if k.None? {
      return false;
    }
    var pc := selected.value;
    var price := SessionPrice(selected, duration);
    if s.user.balance < price {
      return false;
    }
    var req := BookingRequest(pc.id, pc.name, Some(SlotStart(slots[k.value])), duration, price);
    PlaceBooking(s, req, now);
    booked := true;
  }
}
