/** The profile page: the user's upcoming and past bookings, what they have
    spent, the hours shown, and the refund preview and countdown on each
    upcoming booking. A booking without a valid start (`None`) compares false
    with `now`, as an invalid date does. */
module Profile {
  import opened Wrappers
  import opened Model
  import opened Clock
  import opened Seqs
  import opened Derivation
  import opened AppStore

  /** `new Date(b.date) > new Date() && !b.completed`. */
  predicate Upcoming(b: Booking, now: int)
  {
    b.date.Some? && b.date.value > now && !b.completed
  }

  /** `new Date(b.date) <= new Date() || b.completed`. */
  predicate Past(b: Booking, now: int)
  {
    (b.date.Some? && b.date.value <= now) || b.completed
  }

  /** The sort key `new Date(b.date)`; only dated bookings are sorted. */
  function StartKey(b: Booking): int
  {
    if b.date.Some? then b.date.value else 0
  }

  /** `activeBookings`: the upcoming bookings, soonest first. */
  function ActiveBookings(bookings: seq<Booking>, now: int): (r: seq<Booking>)
    ensures SortedBy(StartKey, r)
    ensures forall b :: b in r <==> b in bookings && Upcoming(b, now)
    ensures multiset(r) == multiset(Filter(b => Upcoming(b, now), bookings))
  {
    var upcoming := Filter(b => Upcoming(b, now), bookings);
    var r := SortBy(StartKey, upcoming);
    assert forall b :: b in r <==> b in multiset(r);
    assert forall b :: b in upcoming <==> b in multiset(upcoming);
    r
  }

  /** `pastBookings`, in list order. */
  function PastBookings(bookings: seq<Booking>, now: int): (r: seq<Booking>)
    ensures forall b :: b in r <==> b in bookings && Past(b, now)
  {
    Filter(b => Past(b, now), bookings)
  }

  /** Every dated booking is either upcoming or past, never both; so when all
      bookings are dated the two lists share out the whole list. */
  lemma ActivePastPartition(bookings: seq<Booking>, now: int)
    requires forall b :: b in bookings ==> b.date.Some?
    ensures forall b :: b in bookings ==> (b in ActiveBookings(bookings, now) <==> b !in PastBookings(bookings, now))
    ensures |ActiveBookings(bookings, now)| + |PastBookings(bookings, now)| == |bookings|
  {
    FilterPartition(b => Upcoming(b, now), b => Past(b, now), bookings);
    var upcoming := Filter(b => Upcoming(b, now), bookings);
    assert |multiset(ActiveBookings(bookings, now))| == |multiset(upcoming)|;
  }

  /** A booking without a start and not completed is in neither list. */
  lemma UndatedOpenBookingHidden(bookings: seq<Booking>, now: int, b: Booking)
    requires b in bookings && b.date.None? && !b.completed
    ensures b !in ActiveBookings(bookings, now) && b !in PastBookings(bookings, now)
  {
  }

  function PriceOf(b: Booking): int
  {
    b.price
  }

  /** Counted in `totalSpent`: not completed, or started by now. */
  predicate Charged(b: Booking, now: int)
  {
    !b.completed || (b.date.Some? && b.date.value <= now)
  }

  function TotalSpent(bookings: seq<Booking>, now: int): int
  {
    SumOf(PriceOf, Filter(b => Charged(b, now), bookings))
  }

  /** Only a completed booking whose start is still ahead (or missing) is
      left out of `totalSpent`; without one, it is the sum of all prices. */
  lemma TotalSpentCountsAll(bookings: seq<Booking>, now: int)
    requires forall b :: b in bookings && b.completed ==> b.date.Some? && b.date.value <= now
    ensures TotalSpent(bookings, now) == SumOf(PriceOf, bookings)
  {
    FilterKeepsAll(b => Charged(b, now), bookings);
  }

  /** With non-negative prices the total spent is not negative, and it never
      exceeds the sum of all prices. */
  lemma TotalSpentBounds(bookings: seq<Booking>, now: int)
    requires forall b :: b in bookings ==> b.price >= 0
    ensures 0 <= TotalSpent(bookings, now) <= SumOf(PriceOf, bookings)
  {
    var charged := Filter(b => Charged(b, now), bookings);
    SumOfNonNegative(PriceOf, charged);
    SumOfFilterBound(b => Charged(b, now), bookings);
  }

  lemma {:induction false} SumOfFilterBound(f: Booking -> bool, bookings: seq<Booking>)
    requires forall b :: b in bookings ==> b.price >= 0
    ensures SumOf(PriceOf, Filter(f, bookings)) <= SumOf(PriceOf, bookings)
    decreases |bookings|
  {
    if bookings != [] {
      var init := bookings[..|bookings| - 1];
      var last := bookings[|bookings| - 1];
      assert bookings == init + [last];
      assert forall b :: b in init ==> b in bookings;
      SumOfFilterBound(f, init);
      FilterSnoc(f, init, last);
      if f(last) {
        SumOfAppend(PriceOf, Filter(f, init), [last]);
      }
    }
  }

  function CompletedHours(b: Booking): int
  {
    if b.completed then b.duration else 0
  }

  /** The hours shown: `user.totalHours`, or when that is 0 the durations of
      the completed past bookings. */
  function ShownHours(user: User, past: seq<Booking>): (r: int)
    ensures user.totalHours != 0 ==> r == user.totalHours
    ensures user.totalHours >= 0 ==> r >= 0
  {
    if user.totalHours != 0 then user.totalHours
    else
      SumOfNonNegative(CompletedHours, past);
      SumOf(CompletedHours, past)
  }

  function IsCompleted(b: Booking): bool
  {
    b.completed
  }

  /** With no stored hours, the hours shown are the booked durations of the
      completed bookings among the past ones. */
  lemma {:induction false} ShownHoursFromHistory(user: User, past: seq<Booking>)
    requires user.totalHours == 0
    ensures ShownHours(user, past) == SumOf(SessionHours, Filter(IsCompleted, past))
    decreases |past|
  {
    if past != [] {
      var init := past[..|past| - 1];
      var last := past[|past| - 1];
      assert past == init + [last];
      ShownHoursFromHistory(user, init);
      FilterSnoc(IsCompleted, init, last);
      SumOfAppend(CompletedHours, init, [last]);
      if last.completed {
        SumOfAppend(SessionHours, Filter(IsCompleted, init), [last]);
      }
    }
  }

  /** `canRefund(b.date)`: `(start - now) / 3600000 >= 2`. */
  predicate CanRefund(date: Option<int>, now: int)
  {
    date.Some? && date.value - now >= 2 * MsPerHour
  }

  /** The preview promises a refund exactly when `cancelBooking` gives one. */
  lemma CanRefundMatchesCancel(b: Booking, now: int)
    ensures CanRefund(b.date, now) <==> RefundEligible(b, now)
  {
  }

  /** `getTimeUntilBooking`: hours and minutes, minutes only, or "soon"
      (`Imminent`). */
  function TimeUntilBooking(start: int, now: int): (r: Countdown)
    ensures r.Imminent? <==> start - now < MsPerMinute
  {
    CountdownOf(start - now)
  }

  /** A booking that can still be refunded shows at least two whole hours. */
  lemma RefundableShowsHours(b: Booking, now: int)
    requires CanRefund(b.date, now)
    ensures var r := TimeUntilBooking(b.date.value, now);
            r.InHoursMinutes? && r.hours >= 2
  {
    var r := TimeUntilBooking(b.date.value, now);
    assert r.InHoursMinutes?;
    assert b.date.value - now < (r.hours + 1) * MsPerHour;
  }
}
