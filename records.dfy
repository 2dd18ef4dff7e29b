/**
 * The records the application passes around: menu items and cart lines
 * (src/lib/types.ts), the order-status enumeration of the database
 * (src/lib/supabase/types.ts) and the three possible answers of a database call.
 */
module Records {
  /** Menu items are keyed by the database's string id. */
  type ItemId = string
  type OrderId = string

  /** A menu item as the cart sees it; `price` is in paise so that sums are exact. */
  datatype MenuItem = MenuItem(id: ItemId, name: string, price: int, category: string)

  /** One `{ item, quantity }` entry of the cart. */
  datatype CartLine = CartLine(item: MenuItem, quantity: int)

  /** The database enum `order_status`. */
  datatype OrderStatus = New | Preparing | ReadyForPickup | Completed

  /**
   * What an awaited database call does: it answers without error, it answers
   * with an `error` object, or the await throws.
   */
  datatype DbReply = Ok | DbError | Threw
}
