# Restaurant reservation backend: pricing and record updates

This project models the core of a restaurant reservation and menu-management
backend (an Express/Mongoose REST service) in Dafny and proves properties of
that model.

There are two parts:

- **Reservation pricing** (`createReservation`). The cart total is
  Σ price × quantity over the menu items. Then comes the promotional-hours
  discount of the *first* window whose `day` is `===` the reservation weekday,
  and only when that window's inclusive `[start, end]` covers the time. Then
  comes the promotion card. A card multiplies the discounted total by
  `(100 − q) / 100`, while the recorded `discountApplied` is the sum `p + q`.
  `Pricing.Price` states the rule as a function. `Pricing.ComputeTotal` is the
  handler's accumulate-in-a-loop computation, and it is proved equal to `Price`.
  `UserController.CreateReservation` stores exactly one reservation on success
  and nothing on failure.
- **In-place record and list updates** in the admin and customer handlers.
  Each is a method over the `Db.Database` object, and its contract gives the
  whole new state:
  - the guarded property merge of `updateRestaurantDetails`;
  - removing the first occurrence of a URL from `imagesCover` or a slider;
  - appending slider images;
  - tables, categories and menu items;
  - the OTP compare-and-clear and the profile edit.

JavaScript semantics that matter here are written out in module `Js`:
- truthiness (`if (v)`, `a || b`);
- strict equality (`===`), which never converts between types.
- Mongoose's cast of a value assigned to a Number path.

Quirks of the code that the model keeps, with a lemma for each:

- The schema stores a window's `day` as a weekday name. The code compares it
  with the number `getDay()` returns, using `===`. So no schema-valid window
  ever discounts (`Pricing.SchemaWindowsNeverApply`).
- Menu items are looked up by id alone. An item of another restaurant is
  priced like any other (`Pricing.MenuOwnerIgnored`).
- A window after the first one for the day is never examined
  (`Pricing.OnlyFirstWindowExamined`, `Pricing.LaterWindowIgnored`).
- The recorded percentage `p + q` overstates the effective reduction
  `p + q − pq/100` (`Pricing.StackedDiscounts`).
- A falsy password (such as `""`) passes the credential guard of
  `updateRestaurantDetails` (`AdminController.FalsyPasswordPassesGuard`).
- `editMenuItem` skips the numbers 0 and `false`, which are falsy. The
  string `"0"` is truthy, though, and Mongoose casts it to 0, so it sets the
  price to 0 (`AdminController.ZeroStringSetsZeroPrice`).
- Nothing bounds a menu price below or a promotion percentage above. A price
  of −5, or a 150 % card, makes the stored total negative
  (`Pricing.NegativePriceGivesNegativeTotal`,
  `Pricing.OversizedPromotionGivesNegativeTotal`). Within those bounds the
  total stays between 0 and the cart total (`Pricing.PriceWithinSubtotal`).
- After an OTP has been verified, the stored value is `null`. A request that
  supplies `null` then verifies again.

What the code does, and the model with it:
- the total is never rounded, to two decimals or otherwise;
- a menu item is not checked to belong to the restaurant;
- the first window for the day is taken even when it does not cover the time.

The repository holds no code for a monthly settlement or report, so none is
modelled.

Modules:
- `Wrappers`: Option and Result.
- `Js`: JavaScript values.
- `Lists`: `find`/`findOne`, `indexOf` and `splice`.
- `Records`: the documents.
- `Db`: the store.
- `Pricing`, `UserController`, `AdminController`: the handlers, following the
  two controller files.

## Model

| member | source | states |
|---|---|---|
| `Js.StrictEqualsNeverCoerces` | controllers/userController.js:194-195 | `===` between a string and a number is false in both orders |
| `Js.NumberCast` | models/Menu.js:22-25 | a number is kept as it is; any other value that casts gives a non-negative number; undefined, null and objects fail the cast |
| `Lists.FirstIndex` | controllers/userController.js:194-196 | the result is the least index whose element passes the test, or None exactly when no element passes |
| `Lists.IndexOf` | controllers/adminController.js:101-102 | -1 exactly when the element is absent; otherwise an index holding it, with no occurrence before it |
| `Lists.RemoveFirst` | controllers/adminController.js:101-111 | the list is left as it was exactly when the element is absent |
| `Lists.RemoveFirstPresent` | controllers/adminController.js:101-111 | splicing out the first occurrence: length drops by one, the elements before and after keep their order, exactly one copy of the URL goes, so later duplicates remain |
| `Pricing.Price` | controllers/userController.js:171-229 | a success means the restaurant and every cart item were found; a reported missing item is indeed absent from the menu |
| `Pricing.ComputeTotal` | controllers/userController.js:171-229 | the loop-and-reassign computation returns exactly the outcome of the pricing rule `Price` |
| `Pricing.PricingFailures` | controllers/userController.js:172-228 | each failure holds exactly when its cause does: restaurant not found iff the restaurant is missing; a missing menu item iff the restaurant exists and some line's item is missing; an invalid card iff everything is found, the card is truthy and no promotion has that code for the restaurant |
| `Pricing.FirstMissingItemReported` | controllers/userController.js:182-188 | the item reported missing is that of the first line whose item does not exist |
| `Pricing.PlainTotal` | controllers/userController.js:178-229 | with no window for the day and a falsy card, the total is Σ price × quantity and the discount is 0 |
| `Pricing.SubtotalNonNegative` | controllers/userController.js:178-190 | with non-negative prices, the cart total is non-negative |
| `Pricing.PriceWithinSubtotal` | controllers/userController.js:178-229 | with menu prices at least 0 and window and promotion percentages within [0, 100], a priced reservation's total lies between 0 and the cart total |
| `Pricing.NegativePriceGivesNegativeTotal` | controllers/userController.js:182-190 | a menu price of −5 is priced as a total of −5: nothing bounds prices below |
| `Pricing.OversizedPromotionGivesNegativeTotal` | controllers/userController.js:215-223 | a 150 % promotion on a cart of 10 gives a total of −5: nothing bounds promotion percentages above |
| `Pricing.OnlyFirstWindowExamined` | controllers/userController.js:194-211 | when the first window for the day does not cover the time, no window discount applies, whatever later windows say |
| `Pricing.LaterWindowIgnored` | controllers/userController.js:194-211 | concrete case: a later window for the same day covers the time, but the total is left undiscounted |
| `Pricing.DiscountedWithin` | controllers/userController.js:209-210 | a 0–100 percent discount keeps a non-negative amount within [0, amount] |
| `Pricing.WindowWithinBase` | controllers/userController.js:198-212 | with schema percentages (1–100) and a non-negative base, the total stays in [0, base]; a discount is recorded iff the first window for the day covers the time, and then it equals that window's percentage and the total is base × (100 − p)/100 |
| `Pricing.StackedDiscounts` | controllers/userController.js:209-223 | p then q percent, applied multiplicatively, equals one discount of p + q − pq/100; for positive p, q and base, this leaves more to pay than the recorded p + q |
| `Pricing.CardAfterWindow` | controllers/userController.js:205-223 | a covering window p plus a found card q gives total base × (100 − (p + q − pq/100))/100, with discountApplied p + q |
| `Pricing.SchemaWindowsNeverApply` | models/Restaurant.js:22-27 | windows whose day is a weekday-name string never match the numeric day, so the window step never changes the total |
| `Pricing.SchemaRestaurantPaysPlainTotal` | controllers/userController.js:193-212 | for a restaurant with schema-valid windows and a falsy card, the outcome is the plain sum with discount 0 |
| `Pricing.FalsyCardIgnoresPromotions` | controllers/userController.js:215-229 | with a falsy card, the outcome does not depend on the promotions at all |
| `Pricing.SubtotalIgnoresOwner` | controllers/userController.js:182-190 | reassigning every menu item to another restaurant leaves the cart total unchanged |
| `Pricing.MenuOwnerIgnored` | controllers/userController.js:182-189 | the whole pricing outcome does not depend on which restaurant owns the menu items |
| `Pricing.WorkedExample` | controllers/userController.js:178-229 | prices 10 and 5 with quantities 2 and 1, a 20 % window and a 10 % card give total 18 and discountApplied 30 |
| `UserController.OtpFrom` | controllers/userController.js:67 | for a draw in [0, 1), the OTP lies in [100000, 999999] |
| `UserController.ForgotPassword` | controllers/userController.js:58-95 | 404 and no change for an unknown e-mail; otherwise the six-digit OTP is stored on a customer with that e-mail, and the reply depends only on whether the mail went out |
| `UserController.VerifyOtp` | controllers/userController.js:97-113 | succeeds iff the customer exists and the stored otp `===` the supplied one; then the otp becomes null; on failure nothing changes |
| `UserController.ReplayAfterVerify` | controllers/userController.js:102-107 | after a successful verification, a request supplying null verifies again |
| `UserController.EditProfile` | controllers/userController.js:137-156 | 404 with no change for an unknown customer; otherwise fullName, address and phoneNumber each take the new value when it is truthy and keep the old one otherwise; nothing else changes |
| `UserController.CreateReservation` | controllers/userController.js:158-255 | on a pricing failure, that failure's reply and nothing stored; on success, 201 and exactly one reservation appended with the computed total and discount |
| `UserController.BookTwice` | controllers/userController.js:232-247 | booking the same priced request twice stores two reservations |
| `AdminController.MergeDefined` | controllers/adminController.js:67-71 | the merged properties have exactly the document's keys, and a key the body does not name keeps its value |
| `AdminController.MergeUpdates` | controllers/adminController.js:67-71 | the `for…in` loop adds no key; a key in the body overwrites the property iff the document defines it; every other property is unchanged |
| `AdminController.MergeOnlyOverwrites` | controllers/adminController.js:67-71 | the merge adds no property, and a property it changes is one the body names, the document defines, and which takes the body's value |
| `AdminController.MergeIdempotent` | controllers/adminController.js:67-71 | merging the same body twice is merging it once |
| `AdminController.FalsyPasswordPassesGuard` | controllers/adminController.js:51-56 | a falsy password (`""`, null, 0, false) with a falsy username is not rejected by the guard |
| `AdminController.UpdateRestaurantDetails` | controllers/adminController.js:48-86 | 400 with no change for a truthy username or password, checked before the lookup; 404 with no change for a missing restaurant; otherwise only that restaurant's properties change, to the merge |
| `AdminController.DeleteRestaurantImage` | controllers/adminController.js:88-124 | 404 with no change for a missing restaurant or URL; otherwise imagesCover loses exactly the URL's first occurrence, and nothing else changes |
| `AdminController.AddPromotionalImages` | controllers/adminController.js:180-207 | with no slider, a new slider holds exactly the given images; otherwise the first slider's images become old ++ new; other sliders are unchanged |
| `AdminController.DeletePromotionalImage` | controllers/adminController.js:210-249 | 404 with no change for a missing slider or URL; otherwise the slider's images lose exactly the first occurrence |
| `AdminController.AddTable` | controllers/adminController.js:127-145 | a table number below 1 is rejected with the schema's message and nothing stored; otherwise one table is appended |
| `AdminController.UpdatePax` | controllers/adminController.js:148-177 | only totalPax of the first table keyed by (restaurantId, tableNo) changes; 404 with no change when there is none |
| `AdminController.FindOrCreate` | controllers/adminController.js:302-307 | the categories are left as they were exactly when the (restaurant, name) pair exists; otherwise exactly one category with that pair and the new id is appended |
| `AdminController.FindOrCreateKeepsPairsUnique` | controllers/adminController.js:302-307 | find-or-create keeps the (restaurant, name) pairs unique, keeps existing categories, and links to a category with exactly the requested pair |
| `AdminController.FindOrCreateCategory` | controllers/adminController.js:350-357 | the categories and linked id afterwards are those of the find-or-create rule |
| `AdminController.AddCategory` | controllers/adminController.js:252-278 | an existing pair gives 400 and no insert; otherwise one category is appended; uniqueness of pairs is preserved |
| `AdminController.AddMenuItem` | controllers/adminController.js:297-333 | the item is linked to the found or created category and stored; nothing else in the menu changes |
| `AdminController.Edited` | controllers/adminController.js:360-365 | the edit keeps the item's owner and visibility and links it to the given category |
| `AdminController.EditedTakesOnlyTruthy` | controllers/adminController.js:360-365 | every field keeps its value or takes a supplied truthy value, the price as its Number cast; a non-zero price becomes 0 only through a string; owner and visibility never change |
| `AdminController.ZeroStringSetsZeroPrice` | controllers/adminController.js:363 | the string `"0"` passes the truthiness test and casts to 0, so it sets the price to 0 |
| `AdminController.EditMenuItem` | controllers/adminController.js:335-381 | 404 with no change unless the item matches both ids; a truthy category name goes through find-or-create; a price that fails the Number cast gives 500 with the item unchanged; otherwise only this item changes, and only as the truthy-field edit |
| `AdminController.ToggleMenuItemVisibility` | controllers/adminController.js:384-411 | 404 with no change unless the item matches both ids; otherwise only `visible` of that item is negated |
| `AdminController.ToggleTwice` | controllers/adminController.js:397 | toggling twice restores the menu exactly |

## Left out

- Sign-up and login in both controllers, and `changePassword`: these rest on bcrypt hashing and comparison, which is a foreign library.
- The read-only queries are not modelled: `getMenuItems`, `getMenuItemById`, `getCategories` and `getAllMenuItems`. They add no rule.
- `updateAdress` is not modelled. It is a single `findByIdAndUpdate` pass-through.
- controllers/superAdminController.js is CRUD pass-through and is not part of this model.
- utils/updateRating.js is a floating-point mean over query results and is not part of this model.
- The monthly settlement, report, points and notifications have no source in the repository. No fee formula is invented.
- E-mail delivery is not modelled. Its outcome is the `mailSent` parameter of `ForgotPassword`. The value of `Math.random()` is the `draw` parameter.
- Date and time parsing is not modelled. `new Date(date).getDay()` and the `"HH:mm"` times are taken as decoded integers. Invalid dates and times, which make the comparisons false through NaN, are not modelled.
- JavaScript numbers are exact reals. NaN, infinities, -0 and floating-point rounding are not modelled.
- Quantities are numbers of at least 1 by type, following `min: 1` of the reservation schema; fractions such as 1.5 are priced as the code prices them. A quantity below 1 is not modelled: the code prices it first and only the save rejects it.
- Mongoose validation and casting at save or query time is not modelled, apart from the table-number bound. A non-string promotion card finds no promotion in the model; Mongoose would cast it.
- `Promotion` (userController) and `Menu` (adminController) are used without being imported, so those paths fail with 500 at run time. The model applies the rules the code was written to apply; comments mark the places.
- Js.NumberCast: of the strings, only runs of decimal digits are cast. Other spellings that `Number()` accepts (a sign, a decimal point, an exponent, surrounding blanks, hexadecimal) are treated as a failed cast. The cast of an object or array is taken to fail.
- AdminController.EditMenuItem: the 500 reply for a failed price cast carries Mongoose's message without the value and type it quotes. The other string fields of the body are taken as strings, without Mongoose's String cast.
- UpdateRestaurantDetails: the merge acts on the restaurant's scalar property map. A body key naming an array path (`imagesCover`, `promotionalHours`, `operationalHours`) or a document internal is not modelled.
- The Menu schema has no `visible` path, so Mongoose would not persist the toggle. The model stores it as a boolean that starts false, since undefined is falsy.
- models/Customer.js is not part of this model. The customer fields are those the handlers touch, as JavaScript values.
- Database failures (the 500 replies in every `catch`) are not modelled. Neither are concurrent requests: category pairs are unique only because requests are applied one at a time.
- New document ids are parameters (`newId`, `newCategoryId`, `newMenuId`).
