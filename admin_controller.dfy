/**
 * The restaurant-admin handlers of controllers/adminController.js: the
 * guarded property merge, cover-image and slider-image edits, tables,
 * categories and menu items.
 */
module AdminController {
  import opened Wrappers
  import opened Js
  import opened Lists
  import opened Records
  import opened Db

  // ---------------------------------------------------------------------------
  // updateRestaurantDetails

  /** `body[key]` of a request body: a missing key reads as undefined. */
  function Lookup(body: map<string, JsValue>, key: string): JsValue {
    if key in body then body[key] else Undefined
  }

  /** `updates.username || updates.password`: the guard tests truthiness only. */
  predicate TouchesCredentials(updates: map<string, JsValue>) {
    Truthy(Lookup(updates, "username")) || Truthy(Lookup(updates, "password"))
  }

  /** `restaurant[key] !== undefined` */
  predicate Defined(props: map<string, JsValue>, key: string) {
    !StrictEquals(Lookup(props, key), Undefined)
  }

  /** The properties after every update whose key the document already defines has been copied. */
  function MergeDefined(props: map<string, JsValue>, updates: map<string, JsValue>): (r: map<string, JsValue>)
    ensures r.Keys == props.Keys
    ensures forall k :: k in props && k !in updates ==> r[k] == props[k]
  {
    map k | k in props :: if k in updates && Defined(props, k) then updates[k] else props[k]
  }

  /**
   * `for (const key in updates) if (restaurant[key] !== undefined) restaurant[key] = updates[key]`.
   * Every key is visited once and writes only its own property, so the order
   * of the visit does not matter.
   */
  method MergeUpdates(props: map<string, JsValue>, updates: map<string, JsValue>)
    returns (merged: map<string, JsValue>)
    ensures merged.Keys == props.Keys
    ensures forall k :: k in updates && Defined(props, k) ==> merged[k] == updates[k]
    ensures forall k :: k in props && (k !in updates || !Defined(props, k)) ==> merged[k] == props[k]
  {
    merged := props;
    var pending := updates.Keys;
    while pending != {}
      invariant pending <= updates.Keys
      invariant merged.Keys == props.Keys
      invariant forall k :: k in updates && k !in pending && Defined(props, k) ==> merged[k] == updates[k]
      invariant forall k :: k in props && (k in pending || k !in updates || !Defined(props, k)) ==> merged[k] == props[k]
      decreases pending
    {
      var key :| key in pending;
      if Defined(merged, key) {
        merged := merged[key := updates[key]];
      }
      pending := pending - {key};
    }
  }

  /** The merge adds no property, and a property it changes takes the update's value. */
  lemma MergeOnlyOverwrites(props: map<string, JsValue>, updates: map<string, JsValue>, k: string)
    ensures MergeDefined(props, updates).Keys == props.Keys
    ensures k in props && MergeDefined(props, updates)[k] != props[k] ==>
      k in updates && Defined(props, k) && MergeDefined(props, updates)[k] == updates[k]
  {
  }

  /** Merging the same updates twice is merging them once. */
  lemma MergeIdempotent(props: map<string, JsValue>, updates: map<string, JsValue>)
    ensures MergeDefined(MergeDefined(props, updates), updates) == MergeDefined(props, updates)
  {
    var once := MergeDefined(props, updates);
    var twice := MergeDefined(once, updates);
    forall k | k in once ensures twice[k] == once[k] {
      if k in updates && Defined(once, k) && !Defined(props, k) {
        assert once[k] == props[k];
      }
    }
  }

  /** An empty-string (or null, false, 0) password is falsy and passes the guard. */
  lemma FalsyPasswordPassesGuard(updates: map<string, JsValue>, pw: JsValue)
    requires !Truthy(Lookup(updates, "username")) && !Truthy(pw)
    ensures !TouchesCredentials(updates["password" := pw])
  {
  }

  /**
   * updateRestaurantDetails: rejected with no change when the body sets a
   * truthy username or password (before the restaurant is even looked up);
   * otherwise the defined properties named in the body are overwritten and
   * nothing else changes.
   */
  method UpdateRestaurantDetails(db: Database, id: Id, updates: map<string, JsValue>) returns (reply: Reply)
    modifies db`restaurants
    ensures TouchesCredentials(updates) ==>
      reply == Reply(400, "You cannot update the username or password") && db.restaurants == old(db.restaurants)
    ensures !TouchesCredentials(updates) && id !in old(db.restaurants) ==>
      reply == Reply(404, "Restaurant not found") && db.restaurants == old(db.restaurants)
    ensures !TouchesCredentials(updates) && id in old(db.restaurants) ==>
      var r := old(db.restaurants)[id];
      && reply == Reply(200, "Restaurant details updated successfully")
      && db.restaurants == old(db.restaurants)[id := r.(props := MergeDefined(r.props, updates))]
  {
    if TouchesCredentials(updates) {
      return Reply(400, "You cannot update the username or password");
    }
    if id !in db.restaurants {
      return Reply(404, "Restaurant not found");
    }
    var restaurant := db.restaurants[id];
    var merged := MergeUpdates(restaurant.props, updates);
    assert merged == MergeDefined(restaurant.props, updates);
    db.restaurants := db.restaurants[id := restaurant.(props := merged)];
    reply := Reply(200, "Restaurant details updated successfully");
  }

  // ---------------------------------------------------------------------------
  // Cover images and promotion slider

  /**
   * deleteRestaurantImage: 404 when the restaurant or the URL is missing,
   * with nothing changed; otherwise the first occurrence of the URL is
   * spliced out of imagesCover (see Lists.RemoveFirstPresent).
   */
  method DeleteRestaurantImage(db: Database, id: Id, imageUrl: string) returns (reply: Reply)
    modifies db`restaurants
    ensures id !in old(db.restaurants) ==>
      reply == Reply(404, "Restaurant not found") && db.restaurants == old(db.restaurants)
    ensures id in old(db.restaurants) && imageUrl !in old(db.restaurants)[id].imagesCover ==>
      reply == Reply(404, "Image not found in the imagesCover array") && db.restaurants == old(db.restaurants)
    ensures id in old(db.restaurants) && imageUrl in old(db.restaurants)[id].imagesCover ==>
      var r := old(db.restaurants)[id];
      && reply == Reply(200, "Image removed successfully")
      && db.restaurants == old(db.restaurants)[id := r.(imagesCover := RemoveFirst(r.imagesCover, imageUrl))]
  {
    if id !in db.restaurants {
      return Reply(404, "Restaurant not found");
    }
    var restaurant := db.restaurants[id];
    var imageIndex := IndexOf(restaurant.imagesCover, imageUrl);
    if imageIndex == -1 {
      return Reply(404, "Image not found in the imagesCover array");
    }
    restaurant := restaurant.(imagesCover := Splice(restaurant.imagesCover, imageIndex));
    db.restaurants := db.restaurants[id := restaurant];
    reply := Reply(200, "Image removed successfully");
  }

  /** `PromotionSlider.findOne({ restaurantId })` */
  function FindSlider(sliders: seq<Slider>, restaurantId: Id): Option<nat> {
    FirstIndex(sliders, (s: Slider) => s.restaurantId == restaurantId)
  }

  /**
   * addPromotionalImages: without a slider for the restaurant a new one holds
   * exactly the given images; otherwise the given images are appended, so
   * nothing is removed or reordered.
   */
  method AddPromotionalImages(db: Database, restaurantId: Id, images: seq<string>) returns (reply: Reply)
    modifies db`sliders
    ensures reply == Reply(201, "Promotional images added successfully")
    ensures match FindSlider(old(db.sliders), restaurantId)
      case None => db.sliders == old(db.sliders) + [Slider(restaurantId, images)]
      case Some(j) =>
        db.sliders == old(db.sliders)[j := old(db.sliders)[j].(images := old(db.sliders)[j].images + images)]
  {
    var found := FindSlider(db.sliders, restaurantId);
    match found {
      case None =>
        db.sliders := db.sliders + [Slider(restaurantId, images)];
      case Some(j) =>
        var slider := db.sliders[j];
        db.sliders := db.sliders[j := slider.(images := slider.images + images)];
    }
    reply := Reply(201, "Promotional images added successfully");
  }

  /**
   * deletePromotionalImage: 404 for a missing slider or URL with nothing
   * changed; otherwise the first occurrence is spliced out of the slider's images.
   */
  method DeletePromotionalImage(db: Database, restaurantId: Id, imageUrl: string) returns (reply: Reply)
    modifies db`sliders
    ensures match FindSlider(old(db.sliders), restaurantId)
      case None =>
        reply == Reply(404, "Promotion slider not found") && db.sliders == old(db.sliders)
      case Some(j) =>
        var s := old(db.sliders)[j];
        if imageUrl !in s.images then
          reply == Reply(404, "Image not found in the slider") && db.sliders == old(db.sliders)
        else
          && reply == Reply(200, "Image removed successfully")
          && db.sliders == old(db.sliders)[j := s.(images := RemoveFirst(s.images, imageUrl))]
  {
    var found := FindSlider(db.sliders, restaurantId);
    if found.None? {
      return Reply(404, "Promotion slider not found");
    }
    var j := found.value;
    var slider := db.sliders[j];
    var imageIndex := IndexOf(slider.images, imageUrl);
    if imageIndex == -1 {
      return Reply(404, "Image not found in the slider");
    }
    db.sliders := db.sliders[j := slider.(images := Splice(slider.images, imageIndex))];
    reply := Reply(200, "Image removed successfully");
  }

  // ---------------------------------------------------------------------------
  // Tables

  /** addTable: the schema rejects a table number below 1, with nothing stored. */
  method AddTable(db: Database, tableNo: int, totalPax: int, restaurantId: Id) returns (reply: Reply)
    modifies db`tables
    ensures tableNo < 1 ==>
      reply == Reply(400, "Table validation failed: tableNo: Table number must be at least 1")
      && db.tables == old(db.tables)
    ensures tableNo >= 1 ==>
      reply == Reply(201, "Table added successfully")
      && db.tables == old(db.tables) + [Table(tableNo, totalPax, restaurantId)]
  {
    if tableNo < 1 {
      return Reply(400, "Table validation failed: tableNo: Table number must be at least 1");
    }
    db.tables := db.tables + [Table(tableNo, totalPax, restaurantId)];
    reply := Reply(201, "Table added successfully");
  }

  /** `Table.findOne({ restaurantId, tableNo })` */
  function FindTable(tables: seq<Table>, restaurantId: Id, tableNo: int): Option<nat> {
    FirstIndex(tables, (t: Table) => t.restaurantId == restaurantId && t.tableNo == tableNo)
  }

  /**
   * updatePax: only totalPax of the first table keyed by (restaurantId,
   * tableNo) changes; 404 and no change when there is none.
   */
  method UpdatePax(db: Database, restaurantId: Id, tableNo: int, totalPax: int) returns (reply: Reply)
    modifies db`tables
    ensures match FindTable(old(db.tables), restaurantId, tableNo)
      case None => reply == Reply(404, "Table not found") && db.tables == old(db.tables)
      case Some(j) =>
        && reply == Reply(200, "Total pax updated successfully")
        && db.tables == old(db.tables)[j := old(db.tables)[j].(totalPax := totalPax)]
  {
    var found := FindTable(db.tables, restaurantId, tableNo);
    if found.None? {
      return Reply(404, "Table not found");
    }
    var j := found.value;
    db.tables := db.tables[j := db.tables[j].(totalPax := totalPax)];
    reply := Reply(200, "Total pax updated successfully");
  }

  // ---------------------------------------------------------------------------
  // Categories

  /** `Category.findOne({ restaurant: restaurantId, name })` */
  function FindCategory(cats: seq<Category>, restaurantId: Id, name: string): Option<nat> {
    FirstIndex(cats, (c: Category) => c.restaurant == restaurantId && c.name == name)
  }

  /**
   * The find-or-create step of addMenuItem and editMenuItem: the categories
   * afterwards and the id of the category the item is linked to. `newId` is
   * the id the store gives a category it creates.
   */
  function FindOrCreate(cats: seq<Category>, restaurantId: Id, name: string, newId: Id): (r: (seq<Category>, Id))
    ensures r.0 == cats <==> FindCategory(cats, restaurantId, name).Some?
    ensures r.0 == cats || r.0 == cats + [Category(newId, restaurantId, name)]
  {
    match FindCategory(cats, restaurantId, name)
    case Some(j) => (cats, cats[j].id)
    case None => (cats + [Category(newId, restaurantId, name)], newId)
  }

  /**
   * Find-or-create never adds a second category with the same pair, keeps the
   * existing ones, and links to a category with exactly the requested pair.
   */
  lemma FindOrCreateKeepsPairsUnique(cats: seq<Category>, restaurantId: Id, name: string, newId: Id)
    requires UniqueCategoryPairs(cats)
    ensures var (after, id) := FindOrCreate(cats, restaurantId, name, newId);
      && UniqueCategoryPairs(after)
      && after[..|cats|] == cats
      && exists j :: 0 <= j < |after| && after[j] == Category(id, restaurantId, name)
  {
    var (after, id) := FindOrCreate(cats, restaurantId, name, newId);
    match FindCategory(cats, restaurantId, name)
    case Some(j) =>
      assert after[j] == Category(id, restaurantId, name);
    case None =>
      assert after[|cats|] == Category(id, restaurantId, name);
  }

  method FindOrCreateCategory(db: Database, restaurantId: Id, name: string, newId: Id) returns (categoryId: Id)
    modifies db`categories
    ensures (db.categories, categoryId) == FindOrCreate(old(db.categories), restaurantId, name, newId)
  {
    var found := FindCategory(db.categories, restaurantId, name);
    if found.Some? {
      categoryId := db.categories[found.value].id;
    } else {
      db.categories := db.categories + [Category(newId, restaurantId, name)];
      categoryId := newId;
    }
  }

  /**
   * addCategory: 400 with nothing stored when the (restaurant, name) pair
   * exists; otherwise one category is appended. Either way the pairs stay unique.
   */
  method AddCategory(db: Database, restaurantId: Id, name: string, newId: Id) returns (reply: Reply)
    modifies db`categories
    ensures FindCategory(old(db.categories), restaurantId, name).Some? ==>
      reply == Reply(400, "Category already exists for this restaurant") && db.categories == old(db.categories)
    ensures FindCategory(old(db.categories), restaurantId, name).None? ==>
      reply == Reply(201, "Category created successfully")
      && db.categories == old(db.categories) + [Category(newId, restaurantId, name)]
    ensures UniqueCategoryPairs(old(db.categories)) ==> UniqueCategoryPairs(db.categories)
  {
    if FindCategory(db.categories, restaurantId, name).Some? {
      return Reply(400, "Category already exists for this restaurant");
    }
    db.categories := db.categories + [Category(newId, restaurantId, name)];
    reply := Reply(201, "Category created successfully");
  }

  // ---------------------------------------------------------------------------
  // Menu items
  //
  // The controller never imports the Menu model, so at run time addMenuItem,
  // editMenuItem and toggleMenuItemVisibility throw when they reach `Menu` and
  // reply 500 (addMenuItem after it has already created the category). The
  // rules the handlers were written to apply are modelled.

  /**
   * addMenuItem: links the item to the found or created category and stores
   * it under `newMenuId`. An item starts hidden: its `visible` is undefined,
   * which is falsy.
   */
  method AddMenuItem(
    db: Database, restaurantId: Id, name: string, description: string, price: real,
    categoryName: string, image: string, options: seq<MenuOption>, newCategoryId: Id, newMenuId: Id)
    returns (reply: Reply)
    modifies db`categories, db`menu
    ensures var (cats, categoryId) := FindOrCreate(old(db.categories), restaurantId, categoryName, newCategoryId);
      && db.categories == cats
      && db.menu == old(db.menu)[newMenuId :=
           MenuItem(restaurantId, name, description, price, categoryId, image, options, false)]
      && reply == Reply(201, "Menu item added successfully")
  {
    var categoryId := FindOrCreateCategory(db, restaurantId, categoryName, newCategoryId);
    var item := MenuItem(restaurantId, name, description, price, categoryId, image, options, false);
    db.menu := db.menu[newMenuId := item];
    reply := Reply(201, "Menu item added successfully");
  }

  /**
   * The fields of an editMenuItem body; an absent field is None. The price is
   * whatever JSON value the body holds, since the handler passes it on uncast.
   */
  datatype MenuEdit = MenuEdit(
    name: Option<string>,
    description: Option<string>,
    price: JsValue,
    categoryName: Option<string>,
    image: Option<string>,
    options: Option<seq<MenuOption>>)

  /** A price that is assigned at all (truthy) survives the cast to the Number path. */
  predicate PriceCasts(e: MenuEdit) {
    !Truthy(e.price) || NumberCast(e.price).Some?
  }

  /** The reply when saving the item fails because the price did not cast. */
  const PriceCastFailed := Reply(500, "Menu validation failed: price: Cast to Number failed")

  /**
   * The item after `if (field) menuItem.field = field` for each field. An
   * array is truthy even when empty, so any supplied options replace the old
   * ones; a truthy price is stored as its Number cast.
   */
  function Edited(item: MenuItem, e: MenuEdit, category: Id): (r: MenuItem)
    requires PriceCasts(e)
    ensures r.restaurant == item.restaurant && r.visible == item.visible && r.category == category
  {
    item.(
      category := category,
      name := if Truthy(OfString(e.name)) then e.name.value else item.name,
      description := if Truthy(OfString(e.description)) then e.description.value else item.description,
      price := if Truthy(e.price) then NumberCast(e.price).value else item.price,
      image := if Truthy(OfString(e.image)) then e.image.value else item.image,
      options := if e.options.Some? then e.options.value else item.options)
  }

  /**
   * Each field either keeps its value or takes a supplied truthy value, the
   * price as its Number cast. A price edited to 0 from a non-zero price can
   * only come from a truthy string such as "0": the numbers 0 and false are
   * falsy and skipped. Owner and visibility never change.
   */
  lemma EditedTakesOnlyTruthy(item: MenuItem, e: MenuEdit, category: Id)
    requires PriceCasts(e)
    ensures var r := Edited(item, e, category);
      && r.restaurant == item.restaurant && r.visible == item.visible
      && (r.name == item.name || (e.name == Some(r.name) && r.name != ""))
      && (r.description == item.description || (e.description == Some(r.description) && r.description != ""))
      && (r.image == item.image || (e.image == Some(r.image) && r.image != ""))
      && (r.price == item.price || (Truthy(e.price) && NumberCast(e.price) == Some(r.price)))
      && (r.price == 0.0 && item.price != 0.0 ==> e.price.Str?)
  {
  }

  /** The string "0" is truthy and casts to 0, so it sets the price to 0. */
  lemma ZeroStringSetsZeroPrice(item: MenuItem, e: MenuEdit, category: Id)
    requires e.price == Str("0")
    ensures PriceCasts(e) && Edited(item, e, category).price == 0.0
  {
    assert IsDigits("0");
    assert DigitsValue("0") == DigitsValue("") * 10 + 0;
  }

  /** The menu item `menuId` exists and belongs to `restaurantId`. */
  predicate OwnedItem(menu: map<Id, MenuItem>, menuId: Id, restaurantId: Id) {
    menuId in menu && menu[menuId].restaurant == restaurantId
  }

  /**
   * editMenuItem: the item must match both menuId and restaurantId, or the
   * reply is 404 with nothing changed. A truthy categoryName goes through
   * find-or-create; the other fields are overwritten only when truthy. A
   * truthy price that does not cast to a Number makes the save fail with 500:
   * the item is unchanged, but a category the find-or-create made stays.
   */
  method EditMenuItem(db: Database, menuId: Id, restaurantId: Id, e: MenuEdit, newCategoryId: Id)
    returns (reply: Reply)
    modifies db`categories, db`menu
    ensures !OwnedItem(old(db.menu), menuId, restaurantId) ==>
      && reply == Reply(404, "Menu item not found for this restaurant")
      && db.menu == old(db.menu) && db.categories == old(db.categories)
    ensures OwnedItem(old(db.menu), menuId, restaurantId) ==>
      var item := old(db.menu)[menuId];
      var (cats, categoryId) :=
        if Truthy(OfString(e.categoryName))
        then FindOrCreate(old(db.categories), restaurantId, e.categoryName.value, newCategoryId)
        else (old(db.categories), item.category);
      && db.categories == cats
      && (PriceCasts(e) ==>
            reply == Reply(200, "Menu item updated successfully")
            && db.menu == old(db.menu)[menuId := Edited(item, e, categoryId)])
      && (!PriceCasts(e) ==> reply == PriceCastFailed && db.menu == old(db.menu))
  {
    if !OwnedItem(db.menu, menuId, restaurantId) {
      return Reply(404, "Menu item not found for this restaurant");
    }
    var item := db.menu[menuId];
    var category := item.category;
    if Truthy(OfString(e.categoryName)) {
      category := FindOrCreateCategory(db, restaurantId, e.categoryName.value, newCategoryId);
    }
    // A category created above is already saved when the item's save fails.
    if !PriceCasts(e) {
      return PriceCastFailed;
    }
    db.menu := db.menu[menuId := Edited(item, e, category)];
    reply := Reply(200, "Menu item updated successfully");
  }

  /**
   * toggleMenuItemVisibility: negates `visible` of the item matching both ids
   * and changes nothing else; 404 with no change otherwise.
   */
  method ToggleMenuItemVisibility(db: Database, menuId: Id, restaurantId: Id) returns (reply: Reply)
    modifies db`menu
    ensures !OwnedItem(old(db.menu), menuId, restaurantId) ==>
      reply == Reply(404, "Menu item not found for this restaurant") && db.menu == old(db.menu)
    ensures OwnedItem(old(db.menu), menuId, restaurantId) ==>
      var item := old(db.menu)[menuId];
      && reply == Reply(200, "Menu item visibility changed to " + if item.visible then "hidden" else "visible")
      && db.menu == old(db.menu)[menuId := item.(visible := !item.visible)]
  {
    if !OwnedItem(db.menu, menuId, restaurantId) {
      return Reply(404, "Menu item not found for this restaurant");
    }
    var item := db.menu[menuId];
    item := item.(visible := !item.visible);
    db.menu := db.menu[menuId := item];
    reply := Reply(200, "Menu item visibility changed to " + if item.visible then "visible" else "hidden");
  }

  /** Toggling twice restores the menu exactly. */
  method ToggleTwice(db: Database, menuId: Id, restaurantId: Id)
    modifies db`menu
    ensures db.menu == old(db.menu)
  {
    var _ := ToggleMenuItemVisibility(db, menuId, restaurantId);
    var _ := ToggleMenuItemVisibility(db, menuId, restaurantId);
  }
}
