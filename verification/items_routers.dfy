/** The items-service endpoints: payload constraints and the mapping of table results to HTTP answers. */
module ItemsRouter {
  import opened Wrappers
  import opened Web
  import opened ItemsCrud

  /** The `ItemIn` payload; `stock` is `None` when the client leaves it out. */
  datatype ItemIn = ItemIn(name: string, sku: string, stock: Option<int>)

  /** `ItemIn`'s field constraints: name of 1 to 100 characters, SKU of 1 to 60; any stock. */
  predicate ValidItemIn(p: ItemIn) {
    1 <= |p.name| <= 100 && 1 <= |p.sku| <= 60
  }

  /** `GET /`: 200 with every item. */
  method ListItems(db: ItemTable) returns (a: Answer<seq<Item>>)
    ensures a == Ok(200, db.rows)
  {
    var all := db.ListItems();
    a := Ok(200, all);
  }

  /** `POST /`: 422 for a payload outside the constraints, 409 with the table's message for a
      duplicate SKU, otherwise 201 with the stored item, whose stock defaults to 0. */
  method CreateItem(db: ItemTable, payload: ItemIn) returns (a: Answer<Item>)
    requires db.Valid()
    modifies db
    ensures db.Valid()
    ensures !ValidItemIn(payload) ==> a == Unprocessable && db.rows == old(db.rows)
    ensures ValidItemIn(payload) && (exists i :: 0 <= i < |old(db.rows)| && old(db.rows)[i].sku == payload.sku) ==>
              a == Raised(HttpException(409, SKU_TAKEN)) && db.rows == old(db.rows)
    ensures ValidItemIn(payload) && (forall i :: 0 <= i < |old(db.rows)| ==> old(db.rows)[i].sku != payload.sku) ==>
              && a == Ok(201, Item(|old(db.rows)| + 1, payload.name, payload.sku, payload.stock.GetOr(0)))
              && db.rows == old(db.rows) + [a.body]
  {
    if !ValidItemIn(payload) {
      return Unprocessable;
    }
    var r := db.CreateItem(payload.name, payload.sku, payload.stock.GetOr(0));
    match r
    case Success(item) => a := Ok(201, item);
    case Failure(msg) => a := Raised(HttpException(409, msg));
  }
}
