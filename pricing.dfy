/**
 * The pricing rule of `createReservation`: the cart total from the menu
 * prices, then the promotional-hours discount of the first window for the
 * reservation day, then the promotion card. No rounding is applied anywhere.
 */
module Pricing {
  import opened Wrappers
  import opened Js
  import opened Lists
  import opened Records

  /** The two numbers stored on the reservation. */
  datatype Quote = Quote(totalAmount: real, discountApplied: real)

  datatype PricingError =
    | RestaurantNotFound
    | MenuItemNotFound(menuItem: Id)
    | InvalidPromotionCard

  /** The reply for each way the pricing aborts. */
  function ErrorReply(e: PricingError): Reply {
    match e
    case RestaurantNotFound => Reply(404, "Restaurant not found")
    case MenuItemNotFound(id) => Reply(404, "Menu item not found: " + id)
    case InvalidPromotionCard => Reply(400, "Invalid or expired promotion card")
  }

  // ---------------------------------------------------------------------------
  // Base total

  /** A cart line whose menu item does not exist. */
  predicate Missing(menu: map<Id, MenuItem>, line: CartLine) {
    line.menuItem !in menu
  }

  predicate AllFound(menu: map<Id, MenuItem>, lines: seq<CartLine>) {
    forall i :: 0 <= i < |lines| ==> lines[i].menuItem in menu
  }

  /** The first cart line whose menu item does not exist, as the loop meets it. */
  function FirstMissing(menu: map<Id, MenuItem>, lines: seq<CartLine>): Option<nat> {
    FirstIndex(lines, l => Missing(menu, l))
  }

  /** price × quantity of one line; the item is looked up by id alone. */
  function LineAmount(menu: map<Id, MenuItem>, line: CartLine): real
    requires line.menuItem in menu
  {
    menu[line.menuItem].price * line.quantity
  }

  /** Σ price × quantity over the lines, accumulated front to back. */
  function Subtotal(menu: map<Id, MenuItem>, lines: seq<CartLine>): real
    requires AllFound(menu, lines)
  {
    if lines == [] then 0.0
    else Subtotal(menu, lines[..|lines| - 1]) + LineAmount(menu, lines[|lines| - 1])
  }

  // ---------------------------------------------------------------------------
  // Promotional hours

  /** The value `getDay()` yields, which the stored `day` is compared with. */
  function DayValue(weekday: int): JsValue {
    Num(weekday as real)
  }

  /** `ph.day === currentDay` */
  predicate DayMatches(w: PromoWindow, weekday: int) {
    StrictEquals(w.day, DayValue(weekday))
  }

  /** `promotionalHours.find(ph => ph.day === currentDay)`, as an index. */
  function FirstWindow(windows: seq<PromoWindow>, weekday: int): Option<nat> {
    FirstIndex(windows, w => DayMatches(w, weekday))
  }

  /** The inclusive `start <= time <= end` test on one window. */
  predicate Covers(w: PromoWindow, time: int) {
    w.start <= time <= w.end
  }

  /** `total × ((100 − pct) / 100)` */
  function Discounted(total: real, pct: real): real {
    total * ((100.0 - pct) / 100.0)
  }

  /** The promotional-hours step: only the first window for the day is examined. */
  function ApplyWindow(windows: seq<PromoWindow>, weekday: int, time: int, base: real): Quote {
    match FirstWindow(windows, weekday)
    case None => Quote(base, 0.0)
    case Some(i) =>
      if Covers(windows[i], time) then
        Quote(Discounted(base, windows[i].discountPercent), windows[i].discountPercent)
      else Quote(base, 0.0)
  }

  // ---------------------------------------------------------------------------
  // Promotion card

  /** `Promotion.findOne({ code: promotionCard, restaurant: restaurantId })`: its percentage. */
  function FindPromotion(promotions: map<PromoKey, real>, restaurantId: Id, card: JsValue): Option<real> {
    if card.Str? && PromoKey(card.s, restaurantId) in promotions then
      Some(promotions[PromoKey(card.s, restaurantId)])
    else None
  }

  /** The card step: skipped for a falsy card, fatal for an unknown one. */
  function ApplyCard(promotions: map<PromoKey, real>, restaurantId: Id, card: JsValue, q: Quote): Result<Quote, PricingError> {
    if !Truthy(card) then Success(q)
    else match FindPromotion(promotions, restaurantId, card)
      case None => Failure(InvalidPromotionCard)
      case Some(pct) => Success(Quote(Discounted(q.totalAmount, pct), q.discountApplied + pct))
  }

  // ---------------------------------------------------------------------------
  // The whole rule

  /** The outcome of pricing a reservation request against the stored documents. */
  function Price(
    restaurants: map<Id, Restaurant>, menu: map<Id, MenuItem>,
    promotions: map<PromoKey, real>, req: ReservationRequest): (r: Result<Quote, PricingError>)
    ensures r.Success? ==> req.restaurantId in restaurants && AllFound(menu, req.menuItems)
    ensures r.Failure? && r.error.MenuItemNotFound? ==> r.error.menuItem !in menu
  {
    if req.restaurantId !in restaurants then Failure(RestaurantNotFound)
    else match FirstMissing(menu, req.menuItems)
      case Some(i) => Failure(MenuItemNotFound(req.menuItems[i].menuItem))
      case None =>
        var windowed := ApplyWindow(
          restaurants[req.restaurantId].promotionalHours, req.weekday, req.time,
          Subtotal(menu, req.menuItems));
        ApplyCard(promotions, req.restaurantId, req.promotionCard, windowed)
  }

  /**
   * The computation as the handler performs it: a loop that accumulates the
   * total and stops at the first missing menu item, then the two discount
   * steps, each reassigning the running total.
   */
  method ComputeTotal(
    restaurants: map<Id, Restaurant>, menu: map<Id, MenuItem>,
    promotions: map<PromoKey, real>, req: ReservationRequest)
    returns (r: Result<Quote, PricingError>)
    ensures r == Price(restaurants, menu, promotions, req)
  {
    if req.restaurantId !in restaurants {
      return Failure(RestaurantNotFound);
    }
    var restaurant := restaurants[req.restaurantId];
    var totalAmount := 0.0;
    var discountApplied := 0.0;

    var lines := req.menuItems;
    var i := 0;
    while i < |lines|
      invariant 0 <= i <= |lines|
      invariant AllFound(menu, lines[..i])
      invariant totalAmount == Subtotal(menu, lines[..i])
    {
      var item := lines[i];
      if item.menuItem !in menu {
        assert forall j :: 0 <= j < i ==> !Missing(menu, lines[..i][j]);
        assert FirstMissing(menu, lines) == Some(i);
        return Failure(MenuItemNotFound(item.menuItem));
      }
      assert lines[..i + 1][..i] == lines[..i];
      totalAmount := totalAmount + menu[item.menuItem].price * item.quantity;
      i := i + 1;
    }
    assert lines[..i] == lines;
    assert FirstMissing(menu, lines) == None;
    ghost var windowed := ApplyWindow(restaurant.promotionalHours, req.weekday, req.time, totalAmount);

    var found := FirstWindow(restaurant.promotionalHours, req.weekday);
    if found.Some? {
      var ph := restaurant.promotionalHours[found.value];
      if ph.start <= req.time && req.time <= ph.end {
        discountApplied := ph.discountPercent;
        totalAmount := totalAmount * ((100.0 - discountApplied) / 100.0);
      }
    }

    assert windowed == Quote(totalAmount, discountApplied);
    assert Price(restaurants, menu, promotions, req) == ApplyCard(promotions, req.restaurantId, req.promotionCard, windowed);
    if Truthy(req.promotionCard) {
      // The handler never imports Promotion, so at run time this lookup throws
      // and the request ends with 500; the lookup it was written to make is modelled.
      var promotion := FindPromotion(promotions, req.restaurantId, req.promotionCard);
      if promotion.Some? {
        totalAmount := totalAmount * ((100.0 - promotion.value) / 100.0);
        discountApplied := discountApplied + promotion.value;
        assert Quote(totalAmount, discountApplied) == Quote(Discounted(windowed.totalAmount, promotion.value), windowed.discountApplied + promotion.value);
      } else {
        return Failure(InvalidPromotionCard);
      }
    }
    r := Success(Quote(totalAmount, discountApplied));
  }

  // ---------------------------------------------------------------------------
  // Properties of the rule

  /** Every way the pricing can fail, in the order the handler checks them. */
  lemma PricingFailures(
    restaurants: map<Id, Restaurant>, menu: map<Id, MenuItem>,
    promotions: map<PromoKey, real>, req: ReservationRequest)
    ensures var r := Price(restaurants, menu, promotions, req);
      && (r == Failure(RestaurantNotFound) <==> req.restaurantId !in restaurants)
      && (r.Failure? && r.error.MenuItemNotFound? <==>
            req.restaurantId in restaurants && !AllFound(menu, req.menuItems))
      && (r == Failure(InvalidPromotionCard) <==>
            && req.restaurantId in restaurants && AllFound(menu, req.menuItems)
            && Truthy(req.promotionCard)
            && FindPromotion(promotions, req.restaurantId, req.promotionCard).None?)
  {
  }

  /** The item reported missing is that of the first line whose item does not exist. */
  lemma FirstMissingItemReported(
    restaurants: map<Id, Restaurant>, menu: map<Id, MenuItem>,
    promotions: map<PromoKey, real>, req: ReservationRequest, k: nat)
    requires req.restaurantId in restaurants
    requires k < |req.menuItems| && req.menuItems[k].menuItem !in menu
    requires forall j :: 0 <= j < k ==> req.menuItems[j].menuItem in menu
    ensures Price(restaurants, menu, promotions, req) == Failure(MenuItemNotFound(req.menuItems[k].menuItem))
  {
    assert FirstMissing(menu, req.menuItems) == Some(k);
  }

  /** With no window for the day and a falsy card the total is the plain sum and no discount is recorded. */
  lemma PlainTotal(
    restaurants: map<Id, Restaurant>, menu: map<Id, MenuItem>,
    promotions: map<PromoKey, real>, req: ReservationRequest)
    requires req.restaurantId in restaurants && AllFound(menu, req.menuItems)
    requires var ws := restaurants[req.restaurantId].promotionalHours;
      forall i :: 0 <= i < |ws| ==> !DayMatches(ws[i], req.weekday)
    requires !Truthy(req.promotionCard)
    ensures Price(restaurants, menu, promotions, req) == Success(Quote(Subtotal(menu, req.menuItems), 0.0))
  {
  }

  predicate NonNegativePrices(menu: map<Id, MenuItem>) {
    forall id :: id in menu ==> menu[id].price >= 0.0
  }

  /** With prices of at least zero the cart total is at least zero (quantities are at least 1). */
  lemma {:induction false} SubtotalNonNegative(menu: map<Id, MenuItem>, lines: seq<CartLine>)
    requires AllFound(menu, lines) && NonNegativePrices(menu)
    ensures Subtotal(menu, lines) >= 0.0
  {
    if lines != [] {
      var init := lines[..|lines| - 1];
      assert AllFound(menu, init) by {
        forall i | 0 <= i < |init| ensures init[i].menuItem in menu {
          assert init[i] == lines[i];
        }
      }
      SubtotalNonNegative(menu, init);
      var last := lines[|lines| - 1];
      ProductNonNegative(menu[last.menuItem].price, last.quantity);
    }
  }

  /**
   * Only the first window for the day is examined: when it does not cover the
   * time, no window discount applies, whatever the later windows say.
   */
  lemma OnlyFirstWindowExamined(windows: seq<PromoWindow>, weekday: int, time: int, base: real, k: nat)
    requires k < |windows| && DayMatches(windows[k], weekday) && !Covers(windows[k], time)
    requires forall j :: 0 <= j < k ==> !DayMatches(windows[j], weekday)
    ensures ApplyWindow(windows, weekday, time, base) == Quote(base, 0.0)
  {
    assert FirstWindow(windows, weekday) == Some(k);
  }

  /** Two Monday windows: the second covers 14:10 but the first is the one examined. */
  lemma LaterWindowIgnored()
    ensures var ws := [PromoWindow(Num(1.0), 720, 780, 10.0), PromoWindow(Num(1.0), 840, 900, 20.0)];
      Covers(ws[1], 850) && ApplyWindow(ws, 1, 850, 100.0) == Quote(100.0, 0.0)
  {
    var ws := [PromoWindow(Num(1.0), 720, 780, 10.0), PromoWindow(Num(1.0), 840, 900, 20.0)];
    OnlyFirstWindowExamined(ws, 1, 850, 100.0, 0);
  }

  lemma ProductNonNegative(a: real, b: real)
    requires a >= 0.0 && b >= 0.0
    ensures a * b >= 0.0
  {
  }

  /** A discount of 0 to 100 percent keeps a non-negative amount between 0 and itself. */
  lemma DiscountedWithin(total: real, pct: real)
    requires total >= 0.0 && 0.0 <= pct <= 100.0
    ensures 0.0 <= Discounted(total, pct) <= total
  {
    var f := (100.0 - pct) / 100.0;
    ProductNonNegative(total, f);
    ProductNonNegative(total, 1.0 - f);
    assert total * f == total - total * (1.0 - f);
  }

  /**
   * The window step with schema percentages (1 to 100): the total stays
   * within [0, base]; a discount is recorded exactly when the first window for
   * the day covers the time, and then it is that window's percentage.
   */
  lemma WindowWithinBase(windows: seq<PromoWindow>, weekday: int, time: int, base: real)
    requires base >= 0.0
    requires forall i :: 0 <= i < |windows| ==> 1.0 <= windows[i].discountPercent <= 100.0
    ensures var q := ApplyWindow(windows, weekday, time, base);
      && 0.0 <= q.totalAmount <= base
      && (q.discountApplied != 0.0 <==>
            FirstWindow(windows, weekday).Some? && Covers(windows[FirstWindow(windows, weekday).value], time))
      && (q.discountApplied != 0.0 ==>
            q.discountApplied == windows[FirstWindow(windows, weekday).value].discountPercent
            && q.totalAmount == Discounted(base, q.discountApplied))
  {
    match FirstWindow(windows, weekday)
    case None =>
    case Some(i) =>
      DiscountedWithin(base, windows[i].discountPercent);
  }

  /** The single percentage equivalent to p then q percent applied one after the other. */
  function EffectivePercent(p: real, q: real): real {
    p + q - p * q / 100.0
  }

  /**
   * Applying p then q percent multiplicatively equals one discount of
   * p + q − p·q/100, which for positive p, q and base leaves more to pay than
   * the p + q percent that gets recorded.
   */
  lemma StackedDiscounts(base: real, p: real, q: real)
    ensures Discounted(Discounted(base, p), q) == Discounted(base, EffectivePercent(p, q))
    ensures base > 0.0 && p > 0.0 && q > 0.0 ==>
      Discounted(Discounted(base, p), q) > Discounted(base, p + q)
  {
    calc {
      Discounted(Discounted(base, p), q);
      base * ((100.0 - p) / 100.0) * ((100.0 - q) / 100.0);
      base * ((10000.0 - 100.0 * p - 100.0 * q + p * q) / 10000.0);
      base * ((100.0 - (p + q - p * q / 100.0)) / 100.0);
    }
    if base > 0.0 && p > 0.0 && q > 0.0 {
      assert p * q > 0.0;
      assert base * (p * q / 10000.0) > 0.0;
    }
  }

  /**
   * A window discount p followed by a card discount q: the card works on the
   * already discounted total while the recorded percentage is the sum p + q.
   */
  lemma CardAfterWindow(
    restaurants: map<Id, Restaurant>, menu: map<Id, MenuItem>,
    promotions: map<PromoKey, real>, req: ReservationRequest, k: nat, q: real)
    requires req.restaurantId in restaurants && AllFound(menu, req.menuItems)
    requires var ws := restaurants[req.restaurantId].promotionalHours;
      && k < |ws| && DayMatches(ws[k], req.weekday) && Covers(ws[k], req.time)
      && forall j :: 0 <= j < k ==> !DayMatches(ws[j], req.weekday)
    requires Truthy(req.promotionCard)
    requires FindPromotion(promotions, req.restaurantId, req.promotionCard) == Some(q)
    ensures var p := restaurants[req.restaurantId].promotionalHours[k].discountPercent;
      var base := Subtotal(menu, req.menuItems);
      Price(restaurants, menu, promotions, req)
        == Success(Quote(Discounted(base, EffectivePercent(p, q)), p + q))
  {
    var ws := restaurants[req.restaurantId].promotionalHours;
    var base := Subtotal(menu, req.menuItems);
    var p := ws[k].discountPercent;
    assert FirstWindow(ws, req.weekday) == Some(k);
    assert FirstMissing(menu, req.menuItems) == None;
    var windowed := ApplyWindow(ws, req.weekday, req.time, base);
    assert windowed == Quote(Discounted(base, p), p);
    assert Price(restaurants, menu, promotions, req)
      == ApplyCard(promotions, req.restaurantId, req.promotionCard, windowed)
      == Success(Quote(Discounted(Discounted(base, p), q), p + q));
    StackedDiscounts(base, p, q);
  }

  /**
   * The stored total stays between 0 and the cart total when every menu
   * price is at least 0 and every window and promotion percentage lies
   * between 0 and 100.
   */
  lemma PriceWithinSubtotal(
    restaurants: map<Id, Restaurant>, menu: map<Id, MenuItem>,
    promotions: map<PromoKey, real>, req: ReservationRequest)
    requires NonNegativePrices(menu)
    requires req.restaurantId in restaurants ==>
      var ws := restaurants[req.restaurantId].promotionalHours;
      forall i :: 0 <= i < |ws| ==> 0.0 <= ws[i].discountPercent <= 100.0
    requires forall k :: k in promotions ==> 0.0 <= promotions[k] <= 100.0
    ensures var r := Price(restaurants, menu, promotions, req);
      r.Success? ==>
        && AllFound(menu, req.menuItems)
        && 0.0 <= r.value.totalAmount <= Subtotal(menu, req.menuItems)
  {
    if req.restaurantId in restaurants && FirstMissing(menu, req.menuItems) == None {
      var ws := restaurants[req.restaurantId].promotionalHours;
      var base := Subtotal(menu, req.menuItems);
      SubtotalNonNegative(menu, req.menuItems);
      var windowed := ApplyWindow(ws, req.weekday, req.time, base);
      match FirstWindow(ws, req.weekday) {
        case None =>
        case Some(i) => DiscountedWithin(base, ws[i].discountPercent);
      }
      assert 0.0 <= windowed.totalAmount <= base;
      match FindPromotion(promotions, req.restaurantId, req.promotionCard) {
        case None =>
        case Some(q) => DiscountedWithin(windowed.totalAmount, q);
      }
    }
  }

  /**
   * Nothing bounds a menu price below: a price of −5 is stored as a total of
   * −5.
   */
  lemma NegativePriceGivesNegativeTotal()
    ensures var menu := map["a" := MenuItem("r", "A", "", -5.0, "c", "", [], true)];
      var restaurants := map["r" := Restaurant(map[], [], [])];
      var req := ReservationRequest("r", 2, 5, 750, [CartLine("a", 1.0)], "", "N", "0", Str(""));
      Price(restaurants, menu, map[], req) == Success(Quote(-5.0, 0.0))
  {
    var menu := map["a" := MenuItem("r", "A", "", -5.0, "c", "", [], true)];
    var lines := [CartLine("a", 1.0)];
    assert lines[..0] == [];
    assert Subtotal(menu, lines) == -5.0;
  }

  /**
   * Nothing bounds a promotion percentage above: a 150 percent card on a
   * cart of 10 leaves a total of −5.
   */
  lemma OversizedPromotionGivesNegativeTotal()
    ensures var menu := map["a" := MenuItem("r", "A", "", 10.0, "c", "", [], true)];
      var restaurants := map["r" := Restaurant(map[], [], [])];
      var promotions := map[PromoKey("BIG", "r") := 150.0];
      var req := ReservationRequest("r", 2, 5, 750, [CartLine("a", 1.0)], "", "N", "0", Str("BIG"));
      Price(restaurants, menu, promotions, req) == Success(Quote(-5.0, 150.0))
  {
    var menu := map["a" := MenuItem("r", "A", "", 10.0, "c", "", [], true)];
    var lines := [CartLine("a", 1.0)];
    assert lines[..0] == [];
    assert Subtotal(menu, lines) == 10.0;
  }

  /**
   * The schema stores `day` as a weekday name while `getDay()` yields a
   * number, so `===` never holds and schema-valid windows never discount.
   */
  lemma SchemaWindowsNeverApply(windows: seq<PromoWindow>, weekday: int, time: int, base: real)
    requires forall i :: 0 <= i < |windows| ==> SchemaValidWindow(windows[i])
    ensures FirstWindow(windows, weekday) == None
    ensures ApplyWindow(windows, weekday, time, base) == Quote(base, 0.0)
  {
    forall i | 0 <= i < |windows| ensures !DayMatches(windows[i], weekday) {
      StrictEqualsNeverCoerces(windows[i].day.s, weekday as real);
    }
  }

  /** Hence, for a restaurant whose windows are schema-valid, a falsy card leaves the plain sum. */
  lemma SchemaRestaurantPaysPlainTotal(
    restaurants: map<Id, Restaurant>, menu: map<Id, MenuItem>,
    promotions: map<PromoKey, real>, req: ReservationRequest)
    requires req.restaurantId in restaurants && AllFound(menu, req.menuItems)
    requires var ws := restaurants[req.restaurantId].promotionalHours;
      forall i :: 0 <= i < |ws| ==> SchemaValidWindow(ws[i])
    requires !Truthy(req.promotionCard)
    ensures Price(restaurants, menu, promotions, req) == Success(Quote(Subtotal(menu, req.menuItems), 0.0))
  {
    SchemaWindowsNeverApply(restaurants[req.restaurantId].promotionalHours, req.weekday, req.time,
      Subtotal(menu, req.menuItems));
  }

  /** A falsy card never consults the promotions. */
  lemma FalsyCardIgnoresPromotions(
    restaurants: map<Id, Restaurant>, menu: map<Id, MenuItem>,
    promotions: map<PromoKey, real>, others: map<PromoKey, real>, req: ReservationRequest)
    requires !Truthy(req.promotionCard)
    ensures Price(restaurants, menu, promotions, req) == Price(restaurants, menu, others, req)
  {
  }

  /** The menu with every item reassigned to `owner`. */
  function Reowned(menu: map<Id, MenuItem>, owner: Id): map<Id, MenuItem> {
    map id | id in menu :: menu[id].(restaurant := owner)
  }

  lemma {:induction false} SubtotalIgnoresOwner(menu: map<Id, MenuItem>, owner: Id, lines: seq<CartLine>)
    requires AllFound(menu, lines)
    ensures AllFound(Reowned(menu, owner), lines)
    ensures Subtotal(Reowned(menu, owner), lines) == Subtotal(menu, lines)
  {
    if lines != [] {
      var init := lines[..|lines| - 1];
      assert AllFound(menu, init) by {
        forall i | 0 <= i < |init| ensures init[i].menuItem in menu {
          assert init[i] == lines[i];
        }
      }
      SubtotalIgnoresOwner(menu, owner, init);
    }
  }

  /**
   * Menu items are looked up by id only: which restaurant owns them makes no
   * difference to the outcome, so items of another restaurant are priced too.
   */
  lemma MenuOwnerIgnored(
    restaurants: map<Id, Restaurant>, menu: map<Id, MenuItem>,
    promotions: map<PromoKey, real>, req: ReservationRequest, owner: Id)
    ensures Price(restaurants, Reowned(menu, owner), promotions, req) == Price(restaurants, menu, promotions, req)
  {
    var moved := Reowned(menu, owner);
    FirstIndexAgrees(req.menuItems, l => Missing(moved, l), l => Missing(menu, l));
    if AllFound(menu, req.menuItems) {
      SubtotalIgnoresOwner(menu, owner, req.menuItems);
    }
  }

  /**
   * Prices 10 and 5 with quantities 2 and 1, a 20 percent window covering the
   * time and a 10 percent card: 25 becomes 20 and then 18, recorded as 30 percent.
   * The window's day is stored as the number 5 (Friday), which the schema
   * would not admit; only such a window can match.
   */
  lemma WorkedExample()
    ensures var menu := map["a" := MenuItem("r", "A", "", 10.0, "c", "", [], true),
                            "b" := MenuItem("r", "B", "", 5.0, "c", "", [], true)];
      var restaurants := map["r" := Restaurant(map[], [], [PromoWindow(Num(5.0), 720, 840, 20.0)])];
      var promotions := map[PromoKey("SAVE10", "r") := 10.0];
      var req := ReservationRequest("r", 2, 5, 750, [CartLine("a", 2.0), CartLine("b", 1.0)], "", "N", "0",
                                    Str("SAVE10"));
      Price(restaurants, menu, promotions, req) == Success(Quote(18.0, 30.0))
  {
    var menu := map["a" := MenuItem("r", "A", "", 10.0, "c", "", [], true),
                    "b" := MenuItem("r", "B", "", 5.0, "c", "", [], true)];
    var lines := [CartLine("a", 2.0), CartLine("b", 1.0)];
    assert lines[..1] == [CartLine("a", 2.0)];
    assert [CartLine("a", 2.0)][..0] == [];
    assert Subtotal(menu, lines) == 25.0;
  }
}
