/** The records the store keeps. Instants are integer milliseconds; a field
    the source may leave `null` or unparsable is an `Option`. */
module Model {
  import opened Wrappers

  datatype PCStatus = Available | Booked | Occupied | Maintenance

  datatype Specs = Specs(cpu: string, gpu: string, ram: string, monitor: string)

  /** A workstation of the hall: fixed id, name, specs, hourly price and grid
      position (`position.row`, `position.col`), plus its status and the
      instant it was last set to `occupied`. */
  datatype PC = PC(
    id: int,
    name: string,
    status: PCStatus,
    specs: Specs,
    pricePerHour: int,
    row: int,
    col: int,
    lastUsed: Option<int>)

  /** A reservation. `date` is the start instant (`None` when it is missing or
      does not parse); `duration` is in whole hours (0 stands for a missing
      duration); `price` is frozen at creation. */
  datatype Booking = Booking(
    id: int,
    pcId: int,
    pcName: string,
    date: Option<int>,
    duration: nat,
    price: int,
    completed: bool,
    createdAt: int,
    completedAt: Option<int>)

  /** What a caller hands to `addBooking`: the booking without id, creation
      time and completion flag. */
  datatype BookingRequest = BookingRequest(
    pcId: int,
    pcName: string,
    date: Option<int>,
    duration: nat,
    price: int)

  /** The account: balance and progression (rating, level, accumulated hours). */
  datatype User = User(
    id: string,
    name: string,
    balance: int,
    rating: int,
    level: int,
    totalHours: int)

  datatype ShopItem = ShopItem(id: int, name: string, price: int, category: string, stock: int)

  /** `{ ...item, cartId }`: one unit of a shop item in the cart. */
  datatype CartEntry = CartEntry(item: ShopItem, cartId: int)

  datatype PurchaseLine = PurchaseLine(id: int, name: string, price: int)

  datatype Purchase = Purchase(id: int, items: seq<PurchaseLine>, total: int, date: int)

  datatype Tournament = Tournament(
    id: int,
    name: string,
    game: string,
    entryFee: int,
    prize: int,
    date: int,
    participants: int,
    maxParticipants: int,
    status: string)

  datatype OnlineUser = OnlineUser(id: int, name: string, rating: int, game: string)

  /** A chat request; the source always creates it with status `pending`. */
  datatype ChatRequest = ChatRequest(
    id: int,
    fromUserId: string,
    fromUserName: string,
    toUserId: int,
    toUserName: string,
    createdAt: int)
}
