/** The application store (`useStore`): one object holding the user's
    account, the hall, the bookings, the shop and the tournaments. Every
    action reads the current state and writes back the fields it replaces;
    the actions that touch bookings run the derivation afterwards. Ids that
    the source takes from `Date.now()` come from the counter `nextId`. */
module AppStore {
  import opened Wrappers
  import opened Model
  import opened Clock
  import opened Seqs
  import opened Derivation
  import Registry

  /** `cancelBooking` refunds in full when the booking starts two or more
      hours from now (a missing start never qualifies). */
  predicate RefundEligible(b: Booking, now: int)
  {
    b.date.Some? && b.date.value - now >= RefundLeadMs
  }

  function EntryPrice(e: CartEntry): int
  {
    e.item.price
  }

  /** `cart.reduce((sum, item) => sum + item.price, 0)`. */
  function CartTotal(cart: seq<CartEntry>): int
  {
    SumOf(EntryPrice, cart)
  }

  /** `purchaseCart`'s guard: enough balance for the total and a non-empty cart. */
  predicate CanPurchase(balance: int, cart: seq<CartEntry>)
  {
    balance >= CartTotal(cart) && |cart| > 0
  }

  predicate InCart(cart: seq<CartEntry>, itemId: int)
  {
    exists k :: 0 <= k < |cart| && cart[k].item.id == itemId
  }

  /** The shop after a purchase: every item that appears in the cart, however
      many times, loses one unit of stock, floored at 0. */
  function Restock(items: seq<ShopItem>, cart: seq<CartEntry>): (r: seq<ShopItem>)
    ensures |r| == |items|
    ensures forall i :: 0 <= i < |items| ==> r[i] == items[i].(stock := r[i].stock)
    ensures forall i :: 0 <= i < |items| && !InCart(cart, items[i].id) ==> r[i].stock == items[i].stock
    ensures forall i :: 0 <= i < |items| && InCart(cart, items[i].id) ==>
              (items[i].stock > 0 ==> r[i].stock == items[i].stock - 1)
              && (items[i].stock <= 0 ==> r[i].stock == 0)
  {
    seq(|items|, i requires 0 <= i < |items| =>
      if InCart(cart, items[i].id) then items[i].(stock := Max0(items[i].stock - 1)) else items[i])
  }

  /** `cart.filter(item => item.cartId !== cartId)`. */
  function WithoutEntry(cart: seq<CartEntry>, cartId: int): (r: seq<CartEntry>)
    ensures forall e :: e in r <==> e in cart && e.cartId != cartId
  {
    Filter((e: CartEntry) => e.cartId != cartId, cart)
  }

  function LineOf(e: CartEntry): PurchaseLine
  {
    PurchaseLine(e.item.id, e.item.name, e.item.price)
  }

  function PurchaseLines(cart: seq<CartEntry>): (r: seq<PurchaseLine>)
    ensures |r| == |cart|
  {
    seq(|cart|, i requires 0 <= i < |cart| => LineOf(cart[i]))
  }

  function NewBooking(req: BookingRequest, id: int, now: int): Booking
  {
    Booking(id, req.pcId, req.pcName, req.date, req.duration, req.price, false, now, None)
  }

  /** `bookings.find(b => b.id === id)`. */
  function BookingIndex(bookings: seq<Booking>, id: int): (r: Option<nat>)
    ensures r.None? <==> forall j :: 0 <= j < |bookings| ==> bookings[j].id != id
    ensures r.Some? ==> r.value < |bookings| && bookings[r.value].id == id
    ensures r.Some? ==> forall j :: 0 <= j < r.value ==> bookings[j].id != id
  {
    FindIndex((b: Booking) => b.id == id, bookings)
  }

  /** `bookings.filter(b => b.id !== id)`. */
  function WithoutBooking(bookings: seq<Booking>, id: int): (r: seq<Booking>)
    ensures forall b :: b in r <==> b in bookings && b.id != id
  {
    Filter((b: Booking) => b.id != id, bookings)
  }

  function TournamentIndex(ts: seq<Tournament>, id: int): (r: Option<nat>)
    ensures r.None? <==> forall j :: 0 <= j < |ts| ==> ts[j].id != id
    ensures r.Some? ==> r.value < |ts| && ts[r.value].id == id
    ensures r.Some? ==> forall j :: 0 <= j < r.value ==> ts[j].id != id
  {
    FindIndex((t: Tournament) => t.id == id, ts)
  }

  /** Every tournament with the given id gains one participant. */
  function Enroll(ts: seq<Tournament>, id: int): (r: seq<Tournament>)
    ensures |r| == |ts|
    ensures forall i :: 0 <= i < |ts| && ts[i].id != id ==> r[i] == ts[i]
    ensures forall i :: 0 <= i < |ts| && ts[i].id == id ==>
              r[i] == ts[i].(participants := ts[i].participants + 1)
  {
    seq(|ts|, i requires 0 <= i < |ts| =>
      if ts[i].id == id then ts[i].(participants := ts[i].participants + 1) else ts[i])
  }

  function OnlineUserIndex(users: seq<OnlineUser>, id: int): (r: Option<nat>)
    ensures r.None? <==> forall j :: 0 <= j < |users| ==> users[j].id != id
    ensures r.Some? ==> r.value < |users| && users[r.value].id == id
  {
    FindIndex((u: OnlineUser) => u.id == id, users)
  }

  datatype CompleteResult = SessionCompleted(ratingGain: int, newLevel: int) | SessionNotFound

  /** Which of `cancelBooking`'s messages applies. */
  datatype CancelNote = NoSuchBooking | CancelledWithRefund | CancelledLate | Cancelled

  datatype CancelResult = CancelResult(success: bool, note: CancelNote, refundAmount: int)

  /** The message of a successful cancellation: refunded from two hours out,
      "no refund" while the start is still ahead, plain otherwise (a start
      already past, or no start at all). */
  function CancelNoteFor(b: Booking, now: int): (r: CancelNote)
    ensures r == CancelledWithRefund <==> RefundEligible(b, now)
    ensures r == CancelledLate <==> b.date.Some? && 0 < b.date.value - now < RefundLeadMs
    ensures r != NoSuchBooking
  {
    if RefundEligible(b, now) then CancelledWithRefund
    else if b.date.Some? && b.date.value - now > 0 then CancelledLate
    else Cancelled
  }

  /** What re-deriving after a cancellation leaves among the bookings: none
      with the cancelled id, and no negative price if there was none. */
  lemma DerivedAfterCancel(pcs: seq<PC>, bookings: seq<Booking>, user: User, id: int, now: int)
    ensures var r := Derive(pcs, WithoutBooking(bookings, id), user, now);
            forall i :: 0 <= i < |r.bookings| ==> r.bookings[i].id != id
    ensures var r := Derive(pcs, WithoutBooking(bookings, id), user, now);
            (forall i :: 0 <= i < |bookings| ==> bookings[i].price >= 0) ==>
              forall i :: 0 <= i < |r.bookings| ==> r.bookings[i].price >= 0
  {
    var rest := WithoutBooking(bookings, id);
    forall i | 0 <= i < |rest| ensures rest[i].id != id && rest[i] in bookings {
      assert rest[i] in rest;
    }
  }

  /** The store's invariant on the account and the bookings: the balance is
      not negative, the progression counters obey their rule, and booking
      prices are not negative. */
  ghost predicate Consistent(user: User, bookings: seq<Booking>)
  {
    && user.balance >= 0
    && ProgressInvariant(user)
    && forall i :: 0 <= i < |bookings| ==> bookings[i].price >= 0
  }

  /** A cancellation's reply together with the state it leaves. */
  datatype Cancellation = Cancellation(result: CancelResult, after: Snapshot)

  /** `cancelBooking(bookingId)` on a given state: an unknown id fails and
      changes nothing; otherwise every booking with the id is removed, the
      price is refunded when the start is at least two hours away, and the
      state is re-derived. A completed booking is not refused. */
  function Cancel(pcs: seq<PC>, bookings: seq<Booking>, user: User, id: int, now: int): (c: Cancellation)
    ensures c.result.success <==> BookingIndex(bookings, id).Some?
    ensures !c.result.success ==>
              c.result.note == NoSuchBooking && c.result.refundAmount == 0
              && c.after == Snapshot(pcs, bookings, user)
    ensures c.result.success ==>
              var b := bookings[BookingIndex(bookings, id).value];
              && c.result.note == CancelNoteFor(b, now)
              && c.result.refundAmount == RefundFor(b, now)
              && c.after == Derive(pcs, WithoutBooking(bookings, id), Credit(user, RefundFor(b, now)), now)
  {
    if BookingIndex(bookings, id).None? then
      Cancellation(CancelResult(false, NoSuchBooking, 0), Snapshot(pcs, bookings, user))
    else
      var b := bookings[BookingIndex(bookings, id).value];
      Cancellation(CancelResult(true, CancelNoteFor(b, now), RefundFor(b, now)),
                   Derive(pcs, WithoutBooking(bookings, id), Credit(user, RefundFor(b, now)), now))
  }

  /** The refund of a cancelled booking: its price from two hours out, else nothing. */
  function RefundFor(b: Booking, now: int): int
  {
    if RefundEligible(b, now) then b.price else 0
  }

  function Credit(user: User, amount: int): User
  {
    user.(balance := user.balance + amount)
  }

  /** After a successful cancellation the balance is up by exactly the
      refund, no booking has the id, and every booking that had another id
      is still there, completed by the sweep if it has elapsed. */
  lemma CancelOutcome(pcs: seq<PC>, bookings: seq<Booking>, user: User, id: int, now: int)
    requires Cancel(pcs, bookings, user, id, now).result.success
    ensures var c := Cancel(pcs, bookings, user, id, now);
            && c.after.user.balance == user.balance + c.result.refundAmount
            && |c.after.bookings| == |WithoutBooking(bookings, id)|
            && (forall i :: 0 <= i < |c.after.bookings| ==> c.after.bookings[i].id != id)
            && (forall i :: 0 <= i < |c.after.bookings| ==>
                  c.after.bookings[i] == CompleteIfElapsed(WithoutBooking(bookings, id)[i], now))
  {
    var credited := Credit(user, RefundFor(bookings[BookingIndex(bookings, id).value], now));
    DerivedAfterCancel(pcs, bookings, credited, id, now);
    SweepOutcome(pcs, WithoutBooking(bookings, id), credited, now);
  }

  /** A cancellation keeps the store's invariant: refunds are prices, which
      are not negative. */
  lemma CancelKeepsConsistent(pcs: seq<PC>, bookings: seq<Booking>, user: User, id: int, now: int)
    requires Consistent(user, bookings)
    ensures var c := Cancel(pcs, bookings, user, id, now);
            Consistent(c.after.user, c.after.bookings)
  {
    if BookingIndex(bookings, id).Some? {
      RefundKeepsConsistent(pcs, bookings, user, id, RefundFor(bookings[BookingIndex(bookings, id).value], now), now);
    }
  }

  lemma RefundKeepsConsistent(pcs: seq<PC>, bookings: seq<Booking>, user: User, id: int, refund: int, now: int)
    requires Consistent(user, bookings) && refund >= 0
    ensures var r := Derive(pcs, WithoutBooking(bookings, id), Credit(user, refund), now);
            Consistent(r.user, r.bookings)
  {
    var credited := Credit(user, refund);
    DerivedAfterCancel(pcs, bookings, credited, id, now);
    DeriveKeepsProgress(pcs, WithoutBooking(bookings, id), credited, now);
  }

  /** What `updatePCStatus(pcId, status)` makes of the workstations: every
      one with that id takes the status, `lastUsed` is stamped only when it
      becomes `occupied`, and the others are unchanged. */
  function WithStatus(pcs: seq<PC>, pcId: int, status: PCStatus, now: int): (r: seq<PC>)
    ensures |r| == |pcs|
    ensures forall i :: 0 <= i < |pcs| && pcs[i].id != pcId ==> r[i] == pcs[i]
    ensures forall i :: 0 <= i < |pcs| && pcs[i].id == pcId ==>
              r[i] == pcs[i].(status := status, lastUsed := if status == Occupied then Some(now) else pcs[i].lastUsed)
  {
    seq(|pcs|, i requires 0 <= i < |pcs| =>
      if pcs[i].id == pcId
      then pcs[i].(status := status, lastUsed := if status == Occupied then Some(now) else pcs[i].lastUsed)
      else pcs[i])
  }

  datatype JoinResult = Joined | TournamentNotFound | TournamentFull | InsufficientFunds

  class Store {
    var user: User
    var bookings: seq<Booking>
    var purchaseHistory: seq<Purchase>
    var pcs: seq<PC>
    var shopItems: seq<ShopItem>
    var tournaments: seq<Tournament>
    var onlineUsers: seq<OnlineUser>
    var cart: seq<CartEntry>
    var chatRequests: seq<ChatRequest>
    var nextId: int

    /** The invariant every action keeps: the balance is never negative, the
        progression counters obey their rule, and booking prices are not
        negative (so a refund never lowers the balance). */
    ghost predicate Valid()
      reads this
    {
      Consistent(user, bookings)
    }

    /** The initial state; `now` stands for the clock at start-up and
        `userId` for the user id the source derives from it. */
    constructor (now: int, userId: string)
      ensures Valid()
      ensures user == User(userId, "Геймер", 10000000, 1500, 1, 0)
      ensures bookings == [] && cart == [] && purchaseHistory == [] && chatRequests == []
      ensures pcs == Registry.InitialPCs()
      ensures |shopItems| == 8 && |tournaments| == 3 && |onlineUsers| == 5
      ensures nextId == now
    {
      user := User(userId, "Геймер", 10000000, 1500, 1, 0);
      bookings := [];
      purchaseHistory := [];
      pcs := Registry.InitialPCs();
      shopItems := [
        ShopItem(1, "Кола", 150, "drinks", 100),
        ShopItem(2, "Энергетик", 200, "drinks", 50),
        ShopItem(3, "Чипсы", 180, "snacks", 80),
        ShopItem(4, "Пицца", 500, "food", 20),
        ShopItem(5, "Футболка", 1500, "merch", 15),
        ShopItem(6, "Пополнение Steam", 1000, "gaming", 999),
        ShopItem(7, "Мышь Razer", 5000, "devices", 5),
        ShopItem(8, "Клавиатура", 6000, "devices", 3)
      ];
      tournaments := [
        Tournament(1, "CS2 Weekly", "Counter-Strike 2", 500, 5000, now + 3 * MsPerDay, 12, 16, "open"),
        Tournament(2, "Valorant Open", "Valorant", 300, 3000, now + 7 * MsPerDay, 8, 16, "open"),
        Tournament(3, "Dota 2 Championship", "Dota 2", 1000, 15000, now + 14 * MsPerDay, 24, 32, "open")
      ];
      onlineUsers := [
        OnlineUser(1, "ProGamer", 2500, "CS2"),
        OnlineUser(2, "NoobSlayer", 1800, "Valorant"),
        OnlineUser(3, "CyberNinja", 2200, "Dota 2"),
        OnlineUser(4, "GamerGirl", 2100, "Valorant"),
        OnlineUser(5, "ElitePlayer", 2800, "CS2")
      ];
      cart := [];
      chatRequests := [];
      nextId := now;
    }

    /** Writes a derivation's three results back (the `set` after each call). */
    method Commit(r: Snapshot)
      modifies this`pcs, this`bookings, this`user
      ensures pcs == r.pcs && bookings == r.bookings && user == r.user
    {
      pcs := r.pcs;
      bookings := r.bookings;
      user := r.user;
    }

    /** `updateBalance(amount)`: the balance moves by `amount`, clamped at 0. */
    method UpdateBalance(amount: int) returns (newBalance: int)
      modifies this`user
      ensures newBalance == Max0(old(user.balance) + amount)
      ensures user == old(user).(balance := newBalance)
      ensures old(Valid()) ==> Valid()
    {
      newBalance := Max0(user.balance + amount);
      user := user.(balance := newBalance);
    }

    /** `addBooking(booking)`: appends the booking, not completed, with a new
        id, and re-derives. No overlap check and no debit. */
    method AddBooking(req: BookingRequest, now: int) returns (id: int)
      modifies this`bookings, this`pcs, this`user, this`nextId
      ensures id == old(nextId) && nextId == old(nextId) + 1
      ensures var r := Derive(old(pcs), old(bookings) + [NewBooking(req, id, now)], old(user), now);
              pcs == r.pcs && bookings == r.bookings && user == r.user
      ensures |bookings| == |old(bookings)| + 1
      ensures bookings[|old(bookings)|] == CompleteIfElapsed(NewBooking(req, id, now), now)
      ensures user.balance == old(user.balance)
      ensures old(Valid()) && req.price >= 0 ==> Valid()
    {
      id := nextId;
      nextId := nextId + 1;
      var updated := bookings + [NewBooking(req, id, now)];
      var r := Derive(pcs, updated, user, now);
      SweepOutcome(pcs, updated, user, now);
      if Valid() {
        DeriveKeepsProgress(pcs, updated, user, now);
      }
      Commit(r);
    }

    /** `completeSession(bookingId)`: fails on an unknown or already completed
        booking; otherwise credits one session (without the derivation's
        defaults) and marks every booking with that id completed. */
    method CompleteSession(bookingId: int, now: int) returns (res: CompleteResult)
      modifies this`user, this`bookings
      ensures var k := BookingIndex(old(bookings), bookingId);
              res.SessionNotFound? <==> k.None? || old(bookings)[k.value].completed
      ensures res.SessionNotFound? ==> user == old(user) && bookings == old(bookings)
      ensures res.SessionCompleted? ==>
                var b := old(bookings)[BookingIndex(old(bookings), bookingId).value];
                var hours := old(user.totalHours) + b.duration;
                && res.ratingGain == SessionRating(b)
                && res.newLevel == LevelFor(hours)
                && user == old(user).(totalHours := hours, rating := old(user.rating) + SessionRating(b),
                                      level := LevelFor(hours))
                && |bookings| == |old(bookings)|
                && forall i :: 0 <= i < |bookings| ==>
                     bookings[i] == (if old(bookings)[i].id == bookingId then Complete(old(bookings)[i], now)
                                     else old(bookings)[i])
      ensures old(Valid()) ==> Valid()
    {
      var k := BookingIndex(bookings, bookingId);
      if k.None? || bookings[k.value].completed {
        return SessionNotFound;
      }
      var b := bookings[k.value];
      var ratingGain := SessionRating(b);
      var hours := user.totalHours + b.duration;
      var newLevel := LevelFor(hours);
      var old_bookings := bookings;
      bookings := seq(|old_bookings|, i requires 0 <= i < |old_bookings| =>
        if old_bookings[i].id == bookingId then Complete(old_bookings[i], now) else old_bookings[i]);
      user := user.(totalHours := hours, rating := user.rating + ratingGain, level := newLevel);
      res := SessionCompleted(ratingGain, newLevel);
    }

    /** `cancelBooking(bookingId)`: the state and reply `Cancel` describes. */
    method CancelBooking(bookingId: int, now: int) returns (res: CancelResult)
      modifies this`bookings, this`pcs, this`user
      ensures var c := Cancel(old(pcs), old(bookings), old(user), bookingId, now);
              res == c.result && pcs == c.after.pcs && bookings == c.after.bookings && user == c.after.user
      ensures old(Valid()) ==> Valid()
    {
      var c := Cancel(pcs, bookings, user, bookingId, now);
      if Valid() {
        CancelKeepsConsistent(pcs, bookings, user, bookingId, now);
      }
      Commit(c.after);
      res := c.result;
    }

    /** `updatePCStatus(pcId, status)`. */
    method UpdatePCStatus(pcId: int, status: PCStatus, now: int)
      modifies this`pcs
      ensures pcs == WithStatus(old(pcs), pcId, status, now)
    {
      pcs := WithStatus(pcs, pcId, status, now);
    }

    /** `refreshPCStatuses()`, also what the pages' 60-second timer calls. */
    method RefreshPCStatuses(now: int)
      modifies this`pcs, this`bookings, this`user
      ensures var r := Derive(old(pcs), old(bookings), old(user), now);
              pcs == r.pcs && bookings == r.bookings && user == r.user
      ensures old(Valid()) ==> Valid()
    {
      var r := Derive(pcs, bookings, user, now);
      if Valid() {
        DeriveKeepsProgress(pcs, bookings, user, now);
      }
      Commit(r);
    }

    /** `addToCart(item)`: no stock check. */
    method AddToCart(item: ShopItem)
      modifies this`cart, this`nextId
      ensures cart == old(cart) + [CartEntry(item, old(nextId))]
      ensures nextId == old(nextId) + 1
    {
      cart := cart + [CartEntry(item, nextId)];
      nextId := nextId + 1;
    }

    /** `removeFromCart(cartId)`: drops every entry with that cart id. */
    method RemoveFromCart(cartId: int)
      modifies this`cart
      ensures cart == WithoutEntry(old(cart), cartId)
    {
      cart := WithoutEntry(cart, cartId);
    }

    method ClearCart()
      modifies this`cart
      ensures cart == []
    {
      cart := [];
    }

    /** `purchaseCart()`: all or nothing. */
    method PurchaseCart(now: int) returns (success: bool)
      modifies this`user, this`shopItems, this`cart, this`purchaseHistory, this`nextId
      ensures success == CanPurchase(old(user.balance), old(cart))
      ensures !success ==>
                && user == old(user) && shopItems == old(shopItems) && cart == old(cart)
                && purchaseHistory == old(purchaseHistory) && nextId == old(nextId)
      ensures success ==>
                && user == old(user).(balance := old(user.balance) - CartTotal(old(cart)))
                && cart == []
                && shopItems == Restock(old(shopItems), old(cart))
                && purchaseHistory == old(purchaseHistory) +
                     [Purchase(old(nextId), PurchaseLines(old(cart)), CartTotal(old(cart)), now)]
                && nextId == old(nextId) + 1
      ensures old(Valid()) ==> Valid()
    {
      var total := CartTotal(cart);
      if user.balance >= total && |cart| > 0 {
        user := user.(balance := user.balance - total);
        shopItems := Restock(shopItems, cart);
        purchaseHistory := purchaseHistory + [Purchase(nextId, PurchaseLines(cart), total, now)];
        nextId := nextId + 1;
        cart := [];
        success := true;
      } else {
        success := false;
      }
    }

    /** `joinTournament(tournamentId)`: checks existence, then capacity, then
        funds; on success debits the entry fee once. */
    method JoinTournament(tournamentId: int) returns (res: JoinResult)
      modifies this`user, this`tournaments
      ensures var k := TournamentIndex(old(tournaments), tournamentId);
              && (res.TournamentNotFound? <==> k.None?)
              && (res.TournamentFull? <==>
                    k.Some? && old(tournaments)[k.value].participants >= old(tournaments)[k.value].maxParticipants)
              && (res.InsufficientFunds? <==>
                    k.Some? && old(tournaments)[k.value].participants < old(tournaments)[k.value].maxParticipants
                    && old(user.balance) < old(tournaments)[k.value].entryFee)
      ensures !res.Joined? ==> user == old(user) && tournaments == old(tournaments)
      ensures res.Joined? ==>
                var t := old(tournaments)[TournamentIndex(old(tournaments), tournamentId).value];
                && user == old(user).(balance := old(user.balance) - t.entryFee)
                && tournaments == Enroll(old(tournaments), tournamentId)
      ensures old(Valid()) ==> Valid()
    {
      var k := TournamentIndex(tournaments, tournamentId);
      if k.None? {
        return TournamentNotFound;
      }
      var t := tournaments[k.value];
      if t.participants >= t.maxParticipants {
        return TournamentFull;
      }
      if user.balance < t.entryFee {
        return InsufficientFunds;
      }
      user := user.(balance := user.balance - t.entryFee);
      tournaments := Enroll(tournaments, tournamentId);
      res := Joined;
    }

    /** `sendChatRequest(targetUserId)` as it finally stands: no check for an
        earlier request to the same user. */
    method SendChatRequest(targetUserId: int, now: int) returns (success: bool)
      modifies this`chatRequests, this`nextId
      ensures success <==> OnlineUserIndex(onlineUsers, targetUserId).Some?
      ensures !success ==> chatRequests == old(chatRequests) && nextId == old(nextId)
      ensures success ==>
                var target := onlineUsers[OnlineUserIndex(onlineUsers, targetUserId).value];
                && chatRequests == old(chatRequests) +
                     [ChatRequest(old(nextId), user.id, user.name, targetUserId, target.name, now)]
                && nextId == old(nextId) + 1
    {
      var k := OnlineUserIndex(onlineUsers, targetUserId);
      if k.None? {
        return false;
      }
      var target := onlineUsers[k.value];
      chatRequests := chatRequests + [ChatRequest(nextId, user.id, user.name, targetUserId, target.name, now)];
      nextId := nextId + 1;
      success := true;
    }
  }
}
