/**
 * The customer handlers of controllers/userController.js that change state:
 * issuing and checking a one-time password, editing the profile, and
 * creating a priced reservation.
 */
module UserController {
  import opened Wrappers
  import opened Js
  import opened Records
  import opened Pricing
  import opened Db

  /** `Math.floor(100000 + Math.random() * 900000)` for a draw in [0, 1): always six digits. */
  function OtpFrom(draw: real): (otp: int)
    requires 0.0 <= draw < 1.0
    ensures 100000 <= otp <= 999999
  {
    (100000.0 + draw * 900000.0).Floor
  }

  /** Some customer is registered under `email`. */
  predicate HasEmail(customers: map<Id, Customer>, email: string) {
    exists id :: id in customers && customers[id].email == email
  }

  /**
   * forgotPassword: stores a fresh six-digit otp on the customer found by
   * e-mail. The otp stays stored whether or not the mail goes out; only the
   * reply differs. `draw` is the value of Math.random() and `mailSent` the
   * outcome of the mail transport.
   */
  method ForgotPassword(db: Database, email: string, draw: real, mailSent: bool) returns (reply: Reply)
    requires 0.0 <= draw < 1.0
    modifies db`customers
    ensures !HasEmail(old(db.customers), email) ==>
      reply == Reply(404, "Customer not found") && db.customers == old(db.customers)
    ensures HasEmail(old(db.customers), email) ==>
      && reply == (if mailSent then Reply(200, "OTP sent to your email") else Reply(500, "Failed to send OTP email"))
      && exists id :: id in old(db.customers) && old(db.customers)[id].email == email &&
           db.customers == old(db.customers)[id := old(db.customers)[id].(otp := Num(OtpFrom(draw) as real))]
  {
    if !HasEmail(db.customers, email) {
      return Reply(404, "Customer not found");
    }
    var id :| id in db.customers && db.customers[id].email == email;
    var otp := OtpFrom(draw);
    db.customers := db.customers[id := db.customers[id].(otp := Num(otp as real))];
    reply := if mailSent then Reply(200, "OTP sent to your email") else Reply(500, "Failed to send OTP email");
  }

  /**
   * verifyOtp: succeeds exactly when the customer exists and the stored otp
   * is `===` the supplied one, and then clears it to null; otherwise nothing
   * changes. Strict equality means a supplied string never matches a stored
   * number, while a stored null (after a verification) or an otp never set
   * (undefined) matches a request carrying the same value.
   */
  method VerifyOtp(db: Database, userId: Id, otp: JsValue) returns (reply: Reply)
    modifies db`customers
    ensures var ok := userId in old(db.customers) && StrictEquals(old(db.customers)[userId].otp, otp);
      && (ok ==> reply == Reply(200, "OTP verified successfully")
                 && db.customers == old(db.customers)[userId := old(db.customers)[userId].(otp := Null)])
      && (!ok ==> reply == Reply(400, "Invalid OTP") && db.customers == old(db.customers))
  {
    if userId !in db.customers || !StrictEquals(db.customers[userId].otp, otp) {
      return Reply(400, "Invalid OTP");
    }
    db.customers := db.customers[userId := db.customers[userId].(otp := Null)];
    reply := Reply(200, "OTP verified successfully");
  }

  /**
   * editProfile: each of fullName, address and phoneNumber is replaced only
   * when the supplied value is truthy (`value || user.value`); every other
   * field and every other customer stays as it was.
   */
  method EditProfile(db: Database, userId: Id, fullName: JsValue, address: JsValue, phoneNumber: JsValue)
    returns (reply: Reply)
    modifies db`customers
    ensures userId !in old(db.customers) ==>
      reply == Reply(404, "Customer not found") && db.customers == old(db.customers)
    ensures userId in old(db.customers) ==>
      var c := old(db.customers)[userId];
      && reply == Reply(200, "Profile updated successfully")
      && db.customers == old(db.customers)[userId := c.(
           fullName := Or(fullName, c.fullName),
           address := Or(address, c.address),
           phoneNumber := Or(phoneNumber, c.phoneNumber))]
  {
    if userId !in db.customers {
      return Reply(404, "Customer not found");
    }
    var user := db.customers[userId];
    user := user.(fullName := Or(fullName, user.fullName));
    user := user.(address := Or(address, user.address));
    user := user.(phoneNumber := Or(phoneNumber, user.phoneNumber));
    db.customers := db.customers[userId := user];
    reply := Reply(200, "Profile updated successfully");
  }

  /**
   * Once an otp has been verified the stored value is null, so a request that
   * supplies null verifies again.
   */
  method ReplayAfterVerify(db: Database, userId: Id, otp: JsValue) returns (first: Reply, second: Reply)
    modifies db`customers
    ensures first.status == 200 ==> second.status == 200
  {
    first := VerifyOtp(db, userId, otp);
    second := VerifyOtp(db, userId, Null);
  }

  /** The reservation document stored for a priced request. */
  function NewReservation(userId: Id, req: ReservationRequest, q: Quote): Reservation {
    Reservation(userId, req.restaurantId, req.guestNumber, req.weekday, req.time, req.menuItems,
      req.note, req.name, req.contactNo, q.totalAmount, req.promotionCard, q.discountApplied, false)
  }

  /**
   * createReservation: prices the request and stores one reservation carrying
   * the computed total and discount; when the pricing aborts (restaurant or
   * menu item not found, invalid card) nothing is stored.
   */
  method CreateReservation(db: Database, userId: Id, req: ReservationRequest)
    returns (reply: Reply, saved: Option<Reservation>)
    modifies db`reservations
    ensures match Price(old(db.restaurants), old(db.menu), old(db.promotions), req)
      case Failure(e) =>
        reply == ErrorReply(e) && saved == None && db.reservations == old(db.reservations)
      case Success(q) =>
        && reply == Reply(201, "Reservation created successfully")
        && saved == Some(NewReservation(userId, req, q))
        && db.reservations == old(db.reservations) + [NewReservation(userId, req, q)]
  {
    var priced := ComputeTotal(db.restaurants, db.menu, db.promotions, req);
    match priced
    case Failure(e) =>
      reply, saved := ErrorReply(e), None;
    case Success(q) =>
      var reservation := NewReservation(userId, req, q);
      db.reservations := db.reservations + [reservation];
      reply, saved := Reply(201, "Reservation created successfully"), Some(reservation);
  }

  /** Each reservation stored is a new record: booking twice stores two. */
  method BookTwice(db: Database, userId: Id, req: ReservationRequest)
    modifies db`reservations
    ensures Price(db.restaurants, db.menu, db.promotions, req).Success? ==>
      |db.reservations| == |old(db.reservations)| + 2
  {
    var _, _ := CreateReservation(db, userId, req);
    var _, _ := CreateReservation(db, userId, req);
  }
}
