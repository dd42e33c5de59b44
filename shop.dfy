/** The shop page: the category filter, the cart total and when the add and
    buy buttons are enabled. */
module ShopPage {
  import opened Model
  import opened Seqs
  import opened AppStore

  datatype CategoryFilter = AllCategories | OnlyCategory(name: string)

  /** `filteredItems`: everything for `all`, otherwise exactly the items of
      the chosen category, in list order. */
  function FilteredItems(items: seq<ShopItem>, filter: CategoryFilter): (r: seq<ShopItem>)
    ensures filter.AllCategories? ==> r == items
    ensures filter.OnlyCategory? ==> forall item :: item in r <==> item in items && item.category == filter.name
  {
    var keep := (item: ShopItem) => filter.AllCategories? || item.category == filter.name;
    if filter.AllCategories? then FilterKeepsAll(keep, items); Filter(keep, items)
    else Filter(keep, items)
  }

  /** Adding one entry raises the cart total by that item's price. */
  lemma CartTotalSnoc(cart: seq<CartEntry>, e: CartEntry)
    ensures CartTotal(cart + [e]) == CartTotal(cart) + e.item.price
  {
    assert (cart + [e])[..|cart|] == cart;
  }

  /** The add button is disabled exactly when the item is out of stock (the
      store's `addToCart` itself does not check). */
  predicate AddEnabled(item: ShopItem)
  {
    item.stock != 0
  }

  /** After a purchase, the add button of an item that was in the cart stays
      enabled exactly when more than one unit was in stock; other items keep
      their button. */
  lemma AddEnabledAfterPurchase(items: seq<ShopItem>, cart: seq<CartEntry>, i: int)
    requires 0 <= i < |items|
    ensures InCart(cart, items[i].id) ==> (AddEnabled(Restock(items, cart)[i]) <==> items[i].stock > 1)
    ensures !InCart(cart, items[i].id) ==> (AddEnabled(Restock(items, cart)[i]) <==> AddEnabled(items[i]))
  {
  }

  /** The buy button: `disabled={user.balance < cartTotal || cart.length === 0}`. */
  predicate BuyEnabled(balance: int, cart: seq<CartEntry>)
  {
    !(balance < CartTotal(cart) || |cart| == 0)
  }

  /** The button is enabled exactly when `purchaseCart` would succeed. */
  lemma BuyEnabledMatchesPurchase(balance: int, cart: seq<CartEntry>)
    ensures BuyEnabled(balance, cart) <==> CanPurchase(balance, cart)
  {
  }
}
