/** The document store the handlers read and update, one field per collection. */
module Db {
  import opened Records

  class Database {
    var restaurants: map<Id, Restaurant>
    var menu: map<Id, MenuItem>
    var categories: seq<Category>
    var tables: seq<Table>
    var sliders: seq<Slider>
    var promotions: map<PromoKey, real>
    var customers: map<Id, Customer>
    var reservations: seq<Reservation>

    constructor ()
      ensures restaurants == map[] && menu == map[] && categories == []
      ensures tables == [] && sliders == [] && promotions == map[]
      ensures customers == map[] && reservations == []
    {
      restaurants, menu, categories := map[], map[], [];
      tables, sliders, promotions := [], [], map[];
      customers, reservations := map[], [];
    }
  }
}
