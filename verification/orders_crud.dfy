/** The orders table: an append with no uniqueness check. */
module OrdersCrud {

  /** A row of `orders`. `itemId` holds whatever the caller passes; the order router passes the SKU. */
  datatype Order = Order(id: int, userId: int, itemId: string, qty: int, status: string)

  const CREATED: string := "CREATED"

  class OrderTable {
    var rows: seq<Order>

    /** Ids are assigned 1, 2, 3, ... in insertion order. */
    ghost predicate Valid()
      reads this
    {
      forall i :: 0 <= i < |rows| ==> rows[i].id == i + 1
    }

    constructor ()
      ensures Valid() && rows == []
    {
      rows := [];
    }

    /** `list_orders`: every row, in insertion order; the table is not changed. */
    method ListOrders() returns (r: seq<Order>)
      ensures r == rows
    {
      r := rows;
    }

    /** `create_order`: appends one order with the next id; existing rows are unchanged. */
    method CreateOrder(userId: int, itemId: string, qty: int := 1, status: string := CREATED) returns (o: Order)
      requires Valid()
      modifies this
      ensures Valid()
      ensures o == Order(|old(rows)| + 1, userId, itemId, qty, status)
      ensures rows == old(rows) + [o]
    {
      o := Order(|rows| + 1, userId, itemId, qty, status);
      rows := rows + [o];
    }

    /** Two identical `create_order` calls store two orders with the same fields and distinct ids. */
    method CreateTwice(userId: int, itemId: string, qty: int) returns (a: Order, b: Order)
      requires Valid()
      modifies this
      ensures Valid() && rows == old(rows) + [a, b]
      ensures a.id != b.id
      ensures a.(id := b.id) == b && b.status == CREATED
    {
      a := CreateOrder(userId, itemId, qty);
      b := CreateOrder(userId, itemId, qty);
    }
  }
}
