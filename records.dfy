/**
 * The documents of the reservation backend, with the fields the core reads
 * and writes and the bounds their schemas declare. Identifiers (Mongo
 * ObjectIds) are strings.
 */
module Records {
  import opened Js

  type Id = string

  /** The weekday names the promotional-hours schema admits as `day`. */
  const WeekdayNames: set<string> :=
    {"Monday", "Tuesday", "Wednesday", "Thursday", "Friday", "Saturday", "Sunday"}

  /**
   * One promotional-hours entry of a restaurant. `day` is the stored value as
   * JavaScript sees it; `start` and `end` are the "HH:mm" strings decoded to
   * minutes since midnight.
   */
  datatype PromoWindow = PromoWindow(day: JsValue, start: int, end: int, discountPercent: real)

  /** What the schema admits: a weekday name and a percentage from 1 to 100. */
  predicate SchemaValidWindow(w: PromoWindow) {
    && w.day.Str?
    && w.day.s in WeekdayNames
    && 1.0 <= w.discountPercent <= 100.0
  }

  /**
   * A restaurant document: its scalar paths (name, email, description,
   * address, ...) as a property map in which an unset path is absent or
   * `undefined`, its cover images and its promotional hours.
   */
  datatype Restaurant = Restaurant(
    props: map<string, JsValue>,
    imagesCover: seq<string>,
    promotionalHours: seq<PromoWindow>)

  datatype MenuOption = MenuOption(name: string, values: seq<string>)

  datatype MenuItem = MenuItem(
    restaurant: Id,
    name: string,
    description: string,
    price: real,
    category: Id,
    image: string,
    options: seq<MenuOption>,
    visible: bool)

  datatype Category = Category(id: Id, restaurant: Id, name: string)

  datatype Table = Table(tableNo: int, totalPax: int, restaurantId: Id)

  datatype Slider = Slider(restaurantId: Id, images: seq<string>)

  /** The customer fields the core touches; the password is left to the hashing library. */
  datatype Customer = Customer(
    email: string,
    fullName: JsValue,
    address: JsValue,
    phoneNumber: JsValue,
    otp: JsValue)

  /** The reservation schema requires every quantity to be a number of at least 1; fractions such as 1.5 are admitted. */
  type Quantity = q: real | q >= 1.0 witness 1.0

  datatype CartLine = CartLine(menuItem: Id, quantity: Quantity)

  /** A promotion is looked up by its code within one restaurant. */
  datatype PromoKey = PromoKey(code: string, restaurant: Id)

  /**
   * The body of a reservation request. `weekday` is `new Date(date).getDay()`
   * (0 for Sunday) and `time` the "HH:mm" string in minutes since midnight.
   */
  datatype ReservationRequest = ReservationRequest(
    restaurantId: Id,
    guestNumber: int,
    weekday: int,
    time: int,
    menuItems: seq<CartLine>,
    note: string,
    name: string,
    contactNo: string,
    promotionCard: JsValue)

  datatype Reservation = Reservation(
    user: Id,
    restaurant: Id,
    guestNumber: int,
    weekday: int,
    time: int,
    menuItems: seq<CartLine>,
    note: string,
    name: string,
    contactNo: string,
    totalAmount: real,
    promotionCard: JsValue,
    discountApplied: real,
    completed: bool)

  /** The HTTP status and message a handler answers with. */
  datatype Reply = Reply(status: int, message: string)

  /** No two categories share a (restaurant, name) pair. */
  predicate UniqueCategoryPairs(cats: seq<Category>) {
    forall i, j :: 0 <= i < j < |cats| ==>
      cats[i].restaurant != cats[j].restaurant || cats[i].name != cats[j].name
  }
}
