/** The value types the application state is made of: the screens, the menu and
    cart records, notifications and merchant bookings. */
module Types {

  /** The closed set of screens; exactly one is current at a time. */
  datatype View =
    | Landing
    | Auth
    | MapDiscovery
    | SearchResults
    | RestaurantDetail
    | Checkout
    | OrderSuccess
    | Profile
    | MerchantDashboard
    | NotFound

  /** A dish on a restaurant menu; `price` is in whole dong. An absent
      `popular` flag is represented as `false`. */
  datatype MenuItem = MenuItem(
    id: string,
    name: string,
    price: int,
    description: string,
    image: string,
    category: string,
    popular: bool)

  /** A cart entry: the menu item's fields together with a quantity. */
  datatype CartItem = CartItem(item: MenuItem, quantity: int)
  {
    function Id(): string { item.id }
  }

  datatype ToastType = Success | Error | Info

  /** A notification; `id` is the millisecond clock reading taken when it was raised. */
  datatype Toast = Toast(id: int, message: string, kind: ToastType)

  datatype BookingStatus = Pending | Confirmed | Cancelled

  datatype BookingAction = Confirm | Reject

  /** A table reservation shown on the merchant dashboard. */
  datatype Booking = Booking(
    id: int,
    name: string,
    time: string,
    guests: int,
    phone: string,
    status: BookingStatus)

  datatype Option<T> = None | Some(value: T)
}
