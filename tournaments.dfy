/** The tournaments page: when the join button is enabled, what it says,
    and what pressing it does to the store. */
module TournamentsPage {
  import opened Wrappers
  import opened Model
  import opened AppStore

  /** `canJoin`: funds, a free seat, and registration open. */
  predicate CanJoin(balance: int, t: Tournament)
  {
    balance >= t.entryFee && t.participants < t.maxParticipants && t.status == "open"
  }

  datatype JoinLabel = JoinNow | NoSeats | NoFunds | Unavailable

  /** The button text: join when possible, else "no seats" before "no funds"
      before "unavailable". */
  function ButtonLabel(balance: int, t: Tournament): (r: JoinLabel)
    ensures r == JoinNow <==> CanJoin(balance, t)
    ensures r == NoSeats <==> !CanJoin(balance, t) && t.participants >= t.maxParticipants
    ensures r == NoFunds <==> t.participants < t.maxParticipants && balance < t.entryFee
    ensures r == Unavailable <==>
              t.participants < t.maxParticipants && balance >= t.entryFee && t.status != "open"
  {
    if CanJoin(balance, t) then JoinNow
    else if t.participants >= t.maxParticipants then NoSeats
    else if balance < t.entryFee then NoFunds
    else Unavailable
  }

  /** The page's guard: it does not look at the status. */
  predicate JoinGuard(balance: int, t: Tournament)
  {
    balance >= t.entryFee && t.participants < t.maxParticipants
  }

  /** An enabled button passes the page's guard, and the guard differs from
      it only by the status; for the store's current copy of the tournament,
      the store then refuses for none of its reasons. */
  lemma CanJoinPassesGuards(balance: int, ts: seq<Tournament>, t: Tournament)
    ensures CanJoin(balance, t) <==> JoinGuard(balance, t) && t.status == "open"
    ensures CanJoin(balance, t) && CurrentCopy(ts, t) ==>
              var k := TournamentIndex(ts, t.id);
              k.Some? && ts[k.value].participants < ts[k.value].maxParticipants
              && balance >= ts[k.value].entryFee
  {
  }

  /** `handleJoin(t)` as written: `joinTournament(t.id)`, which debits the
      fee, then `updateBalance(-t.entryFee)`, which debits it again. */
  method HandleJoin(s: Store, t: Tournament) returns (acted: bool)
    modifies s`user, s`tournaments
    ensures acted <==> JoinGuard(old(s.user.balance), t)
    ensures !acted ==> s.user == old(s.user) && s.tournaments == old(s.tournaments)
    ensures acted ==>
              var k := TournamentIndex(old(s.tournaments), t.id);
              var fee := if k.Some? then old(s.tournaments)[k.value].entryFee else 0;
              var joined := k.Some? && old(s.tournaments)[k.value].participants < old(s.tournaments)[k.value].maxParticipants
                            && old(s.user.balance) >= fee;
              && s.user == old(s.user).(balance := Max0((if joined then old(s.user.balance) - fee else old(s.user.balance)) - t.entryFee))
              && s.tournaments == (if joined then Enroll(old(s.tournaments), t.id) else old(s.tournaments))
    ensures acted && CurrentCopy(old(s.tournaments), t) ==>
              && s.user.balance == Max0(old(s.user.balance) - 2 * t.entryFee)
              && s.tournaments == Enroll(old(s.tournaments), t.id)
    ensures old(s.Valid()) ==> s.Valid()
  {
    if !JoinGuard(s.user.balance, t) {
      return false;
    }
    var _ := s.JoinTournament(t.id);
    var _ := s.UpdateBalance(-t.entryFee);
    acted := true;
  }

  /** The page shows the store's current record of the tournament. */
  predicate CurrentCopy(ts: seq<Tournament>, t: Tournament)
  {
    var k := TournamentIndex(ts, t.id);
    k.Some? && ts[k.value] == t
  }

  /** `handleJoin` debiting the fee once: the store's join alone. */
  method HandleJoinOnce(s: Store, t: Tournament) returns (acted: bool)
    modifies s`user, s`tournaments
    ensures acted <==> JoinGuard(old(s.user.balance), t)
    ensures !acted ==> s.user == old(s.user) && s.tournaments == old(s.tournaments)
    ensures acted ==>
              var k := TournamentIndex(old(s.tournaments), t.id);
              var joined := k.Some? && old(s.tournaments)[k.value].participants < old(s.tournaments)[k.value].maxParticipants
                            && old(s.user.balance) >= old(s.tournaments)[k.value].entryFee;
              && s.user == old(s.user).(balance := if joined then old(s.user.balance) - old(s.tournaments)[k.value].entryFee
                                                   else old(s.user.balance))
              && s.tournaments == (if joined then Enroll(old(s.tournaments), t.id) else old(s.tournaments))
    ensures acted && CurrentCopy(old(s.tournaments), t) ==>
              && s.user.balance == old(s.user.balance) - t.entryFee
              && s.user.balance >= 0
              && s.tournaments == Enroll(old(s.tournaments), t.id)
    ensures old(s.Valid()) ==> s.Valid()
  {
    if !JoinGuard(s.user.balance, t) {
      return false;
    }
    var _ := s.JoinTournament(t.id);
    acted := true;
  }
}
