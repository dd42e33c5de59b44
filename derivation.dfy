/** `updatePCStatusesFromBookings`: from the workstations, the bookings, the
    user and the instant `now`, it
      1. completes every booking that has run to its end and credits the user
         with rating, hours and the recomputed level, and
      2. derives each workstation's status from its earliest-starting live
         booking.
    It is pure: the store writes its three results back. */
module Derivation {
  import opened Wrappers
  import opened Model
  import opened Clock
  import opened Seqs

  /** `!b.date || !b.duration` fails: the booking has a start and a non-zero length. */
  predicate Scheduled(b: Booking)
  {
    b.date.Some? && b.duration != 0
  }

  function EndOf(b: Booking): int
    requires b.date.Some?
  {
    b.date.value + b.duration * MsPerHour
  }

  /** A booking the sweep completes: not yet completed and over by `now`. */
  predicate Elapsed(b: Booking, now: int)
  {
    !b.completed && Scheduled(b) && EndOf(b) <= now
  }

  /** A booking that holds workstation `pcId`: not completed and ending after `now`. */
  predicate Live(b: Booking, pcId: int, now: int)
  {
    b.pcId == pcId && !b.completed && Scheduled(b) && EndOf(b) > now
  }

  /** A falsy rating or level is reset to 1500 and 1. (A falsy `totalHours` is
      reset to 0, which leaves an integer unchanged.) */
  function WithDefaults(u: User): (r: User)
    ensures r == u.(rating := r.rating, level := r.level)
    ensures u.rating == 0 ==> r.rating == 1500
    ensures u.level == 0 ==> r.level == 1
    ensures u.rating != 0 ==> r.rating == u.rating
    ensures u.level != 0 ==> r.level == u.level
  {
    u.(rating := if u.rating == 0 then 1500 else u.rating,
       level := if u.level == 0 then 1 else u.level)
  }

  /** The level for an hour count: one level per 100 hours, starting at 1. */
  function LevelFor(hours: int): int
  {
    hours / 100 + 1
  }

  /** The rating a completed session earns: a base of 10 plus 5 per hour. */
  function SessionRating(b: Booking): int
  {
    10 + 5 * b.duration
  }

  function SessionHours(b: Booking): int
  {
    b.duration
  }

  /** The user after a batch of completions has been credited at once. */
  function Reward(u: User, done: seq<Booking>): User
  {
    var hours := u.totalHours + SumOf(SessionHours, done);
    u.(totalHours := hours, rating := u.rating + SumOf(SessionRating, done), level := LevelFor(hours))
  }

  function Complete(b: Booking, now: int): Booking
  {
    b.(completed := true, completedAt := Some(now))
  }

  function CompleteIfElapsed(b: Booking, now: int): Booking
  {
    if Elapsed(b, now) then Complete(b, now) else b
  }

  /** The completion sweep: each elapsed booking is marked completed in place. */
  function Sweep(bookings: seq<Booking>, now: int): (r: seq<Booking>)
    ensures |r| == |bookings|
    ensures forall i :: 0 <= i < |bookings| ==>
              r[i] == bookings[i].(completed := r[i].completed, completedAt := r[i].completedAt)
  {
    seq(|bookings|, i requires 0 <= i < |bookings| => CompleteIfElapsed(bookings[i], now))
  }

  function StartOf(b: Booking): int
    requires b.date.Some?
  {
    b.date.value
  }

  /** The index of the earliest-starting booking, the first one among equal
      starts: the head of the list after JavaScript's stable sort by start. */
  function EarliestIndex(bs: seq<Booking>): (k: nat)
    requires |bs| > 0
    requires forall j :: 0 <= j < |bs| ==> bs[j].date.Some?
    ensures k < |bs|
    ensures forall j :: 0 <= j < |bs| ==> StartOf(bs[k]) <= StartOf(bs[j])
    ensures forall j :: 0 <= j < k ==> StartOf(bs[j]) > StartOf(bs[k])
    decreases |bs|
  {
    if |bs| == 1 then 0
    else
      var k := EarliestIndex(bs[1..]);
      assert forall j :: 1 <= j < |bs| ==> bs[j] == bs[1..][j - 1];
      if StartOf(bs[0]) <= StartOf(bs[k + 1]) then 0 else k + 1
  }

  function LiveFor(bookings: seq<Booking>, pcId: int, now: int): (r: seq<Booking>)
    ensures forall b :: b in r <==> b in bookings && Live(b, pcId, now)
    ensures forall j :: 0 <= j < |r| ==> r[j].date.Some?
  {
    var r := Filter(b => Live(b, pcId, now), bookings);
    assert forall j :: 0 <= j < |r| ==> r[j] in r;
    r
  }

  /** One workstation's status: kept `occupied` or reset to `available` with
      no live booking; otherwise `occupied` while its earliest live booking
      runs and `booked` before it starts. */
  function DerivePC(pc: PC, bookings: seq<Booking>, now: int): PC
  {
    var live := LiveFor(bookings, pc.id, now);
    if |live| == 0 then
      (if pc.status == Occupied then pc else pc.(status := Available))
    else
      var next := live[EarliestIndex(live)];
      if StartOf(next) <= now && EndOf(next) > now then pc.(status := Occupied)
      else if StartOf(next) > now then pc.(status := Booked)
      else pc
  }

  datatype Snapshot = Snapshot(pcs: seq<PC>, bookings: seq<Booking>, user: User)

  /** `updatePCStatusesFromBookings(pcs, bookings, user)` at instant `now`. */
  function Derive(pcs: seq<PC>, bookings: seq<Booking>, user: User, now: int): (r: Snapshot)
    ensures |r.pcs| == |pcs| && |r.bookings| == |bookings|
    ensures forall i :: 0 <= i < |pcs| ==> r.pcs[i] == pcs[i].(status := r.pcs[i].status)
    ensures forall i :: 0 <= i < |bookings| ==>
              r.bookings[i] == bookings[i].(completed := r.bookings[i].completed,
                                            completedAt := r.bookings[i].completedAt)
    ensures r.user.balance == user.balance && r.user.id == user.id && r.user.name == user.name
  {
    var u0 := WithDefaults(user);
    var done := CompletedSessions(bookings, now);
    var u1 := if |done| > 0 then Reward(u0, done) else u0;
    var bs1 := if |done| > 0 then Sweep(bookings, now) else bookings;
    Snapshot(seq(|pcs|, i requires 0 <= i < |pcs| => DerivePC(pcs[i], bs1, now)), bs1, u1)
  }

  /** The bookings elapsed at `now`, in list order. */
  function CompletedSessions(bookings: seq<Booking>, now: int): (r: seq<Booking>)
    ensures forall b :: b in r <==> b in bookings && Elapsed(b, now)
  {
    Filter(b => Elapsed(b, now), bookings)
  }

  // ---------------------------------------------------------------------
  // The completion sweep

  /** Every elapsed booking, and only those, comes out completed (stamped with
      `now`); every other booking comes out unchanged, in the same place. */
  lemma SweepOutcome(pcs: seq<PC>, bookings: seq<Booking>, user: User, now: int)
    ensures var r := Derive(pcs, bookings, user, now).bookings;
            |r| == |bookings| &&
            forall i :: 0 <= i < |bookings| ==>
              r[i] == (if Elapsed(bookings[i], now) then Complete(bookings[i], now) else bookings[i])
  {
    var done := CompletedSessions(bookings, now);
    if |done| == 0 {
      forall i | 0 <= i < |bookings| ensures !Elapsed(bookings[i], now) {
        assert bookings[i] in bookings;
      }
    }
  }

  /** After a derivation nothing is left to complete at the same instant. */
  lemma NothingElapsedAfter(pcs: seq<PC>, bookings: seq<Booking>, user: User, now: int)
    ensures var r := Derive(pcs, bookings, user, now).bookings;
            forall i :: 0 <= i < |r| ==> !Elapsed(r[i], now)
  {
    SweepOutcome(pcs, bookings, user, now);
  }

  // ---------------------------------------------------------------------
  // Progression rewards

  /** Each completed session earns 10 + 5 x duration, so a batch earns
      10 per session plus 5 per hour. */
  lemma {:induction false} SessionRatingTotal(done: seq<Booking>)
    ensures SumOf(SessionRating, done) == 10 * |done| + 5 * SumOf(SessionHours, done)
    decreases |done|
  {
    if done != [] {
      SessionRatingTotal(done[..|done| - 1]);
    }
  }

  /** The user after a derivation: with completions, rating gains
      10 + 5 x duration per completed session, hours gain the durations and
      the level is recomputed; without, only the defaults apply. The balance
      never changes. */
  lemma RewardOutcome(pcs: seq<PC>, bookings: seq<Booking>, user: User, now: int)
    ensures var r := Derive(pcs, bookings, user, now).user;
            var done := CompletedSessions(bookings, now);
            var u0 := WithDefaults(user);
            if |done| == 0 then r == u0
            else
              && r == u0.(rating := r.rating, totalHours := r.totalHours, level := r.level)
              && r.rating == u0.rating + 10 * |done| + 5 * SumOf(SessionHours, done)
              && r.totalHours == user.totalHours + SumOf(SessionHours, done)
              && r.level == (user.totalHours + SumOf(SessionHours, done)) / 100 + 1
  {
    SessionRatingTotal(CompletedSessions(bookings, now));
  }

  /** The account invariant the store keeps: non-negative rating and hours,
      and the level that the hours give. A derivation keeps it, and hours and
      level never go down. */
  predicate ProgressInvariant(u: User)
  {
    u.rating >= 0 && u.totalHours >= 0 && u.level == LevelFor(u.totalHours)
  }

  lemma DeriveKeepsProgress(pcs: seq<PC>, bookings: seq<Booking>, user: User, now: int)
    requires ProgressInvariant(user)
    ensures var r := Derive(pcs, bookings, user, now).user;
            && ProgressInvariant(r)
            && r.totalHours >= user.totalHours
            && r.level >= user.level
            && r.rating >= user.rating
  {
    var done := CompletedSessions(bookings, now);
    if |done| > 0 {
      SumOfNonNegative(SessionHours, done);
      RewardOutcome(pcs, bookings, user, now);
    }
  }

  // ---------------------------------------------------------------------
  // Status derivation

  /** Some live booking of workstation `pcId` exists. */
  predicate HasLive(bookings: seq<Booking>, pcId: int, now: int)
  {
    exists j :: 0 <= j < |bookings| && Live(bookings[j], pcId, now)
  }

  /** Some live booking of workstation `pcId` has already started. */
  predicate HasStarted(bookings: seq<Booking>, pcId: int, now: int)
  {
    exists j :: 0 <= j < |bookings| && Live(bookings[j], pcId, now) && StartOf(bookings[j]) <= now
  }

  /** The status rule without sorting: `occupied` iff a live booking has
      started (or, with none live, if it already was), `booked` iff there are
      live bookings and none has started, `available` otherwise. Nothing but
      the status changes. */
  lemma DerivePCStatus(pc: PC, bookings: seq<Booking>, now: int)
    ensures var r := DerivePC(pc, bookings, now);
            && r == pc.(status := r.status)
            && r.status == (if HasStarted(bookings, pc.id, now) then Occupied
                            else if HasLive(bookings, pc.id, now) then Booked
                            else if pc.status == Occupied then Occupied
                            else Available)
  {
    var live := LiveFor(bookings, pc.id, now);
    if |live| > 0 {
      var k := EarliestIndex(live);
      assert live[k] in bookings;
      var j :| 0 <= j < |bookings| && bookings[j] == live[k];
      assert HasLive(bookings, pc.id, now);
      if HasStarted(bookings, pc.id, now) {
        var i :| 0 <= i < |bookings| && Live(bookings[i], pc.id, now) && StartOf(bookings[i]) <= now;
        assert bookings[i] in live;
        var m :| 0 <= m < |live| && live[m] == bookings[i];
        assert StartOf(live[k]) <= StartOf(live[m]);
      } else {
        assert !(StartOf(bookings[j]) <= now);
      }
    }
  }

  /** The sweep does not change which bookings are live. */
  lemma LiveIgnoresSweep(b: Booking, pcId: int, now: int)
    ensures Live(CompleteIfElapsed(b, now), pcId, now) == Live(b, pcId, now)
    ensures CompleteIfElapsed(b, now).date == b.date
  {
  }

  /** Each workstation's derived status, stated over the bookings as they
      were before the sweep. */
  lemma DerivedStatus(pcs: seq<PC>, bookings: seq<Booking>, user: User, now: int, i: int)
    requires 0 <= i < |pcs|
    ensures var r := Derive(pcs, bookings, user, now).pcs[i];
            && r == pcs[i].(status := r.status)
            && r.status == (if HasStarted(bookings, pcs[i].id, now) then Occupied
                            else if HasLive(bookings, pcs[i].id, now) then Booked
                            else if pcs[i].status == Occupied then Occupied
                            else Available)
  {
    var bs1 := Derive(pcs, bookings, user, now).bookings;
    SweepOutcome(pcs, bookings, user, now);
    DerivePCStatus(pcs[i], bs1, now);
    var id := pcs[i].id;
    forall j | 0 <= j < |bookings|
      ensures Live(bs1[j], id, now) == Live(bookings[j], id, now)
      ensures bs1[j].date == bookings[j].date
    {
      LiveIgnoresSweep(bookings[j], id, now);
    }
    assert HasLive(bs1, id, now) == HasLive(bookings, id, now);
    assert HasStarted(bs1, id, now) == HasStarted(bookings, id, now);
  }

  // ---------------------------------------------------------------------
  // Idempotence

  lemma DerivePCIdempotent(pc: PC, bookings: seq<Booking>, now: int)
    ensures DerivePC(DerivePC(pc, bookings, now), bookings, now) == DerivePC(pc, bookings, now)
  {
    DerivePCStatus(pc, bookings, now);
    DerivePCStatus(DerivePC(pc, bookings, now), bookings, now);
  }

  /** Deriving twice at the same instant gives what deriving once gives, for
      any user whose rating and hours are not negative (as the store's are). */
  lemma DeriveIdempotent(pcs: seq<PC>, bookings: seq<Booking>, user: User, now: int)
    requires user.rating >= 0 && user.totalHours >= 0
    ensures var r := Derive(pcs, bookings, user, now);
            Derive(r.pcs, r.bookings, r.user, now) == r
  {
    var r := Derive(pcs, bookings, user, now);
    NothingElapsedAfter(pcs, bookings, user, now);
    var done := CompletedSessions(bookings, now);
    if |done| > 0 {
      SumOfNonNegative(SessionHours, done);
      RewardOutcome(pcs, bookings, user, now);
    }
    assert WithDefaults(r.user) == r.user;
    forall b | b in r.bookings ensures !Elapsed(b, now) {
      var j :| 0 <= j < |r.bookings| && r.bookings[j] == b;
    }
    FilterKeepsNone(b => Elapsed(b, now), r.bookings);
    assert |CompletedSessions(r.bookings, now)| == 0;
    var r2 := Derive(r.pcs, r.bookings, r.user, now);
    assert r2.bookings == r.bookings;
    assert r2.user == r.user;
    forall i | 0 <= i < |pcs| ensures r2.pcs[i] == r.pcs[i] {
      DerivePCIdempotent(pcs[i], r.bookings, now);
    }
  }
}
