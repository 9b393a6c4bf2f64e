/** The items table and its three operations. */
module ItemsCrud {
  import opened Wrappers
  import Lookup

  /** A row of `items`: `stock` defaults to 0 and has no lower bound. */
  datatype Item = Item(id: int, name: string, sku: string, stock: int)

  const SKU_TAKEN: string := "SKU ya existente"

  /** No two rows share a SKU. */
  ghost predicate SkusUnique(rows: seq<Item>) {
    forall i, j :: 0 <= i < j < |rows| ==> rows[i].sku != rows[j].sku
  }

  class ItemTable {
    var rows: seq<Item>

    /** Ids are assigned 1, 2, 3, ... in insertion order, and `create_item` keeps SKUs unique. */
    ghost predicate Valid()
      reads this
    {
      && (forall i :: 0 <= i < |rows| ==> rows[i].id == i + 1)
      && SkusUnique(rows)
    }

    constructor ()
      ensures Valid() && rows == []
    {
      rows := [];
    }

    /** `list_items`: every row, in insertion order; the table is not changed. */
    method ListItems() returns (r: seq<Item>)
      ensures r == rows
    {
      r := rows;
    }

    /** `get_item_by_sku`: the first row with this SKU, or `None`. */
    function GetItemBySku(sku: string): (it: Option<Item>)
      reads this
      ensures it.None? <==> forall i :: 0 <= i < |rows| ==> rows[i].sku != sku
      ensures it.Some? ==> exists i :: 0 <= i < |rows| && rows[i] == it.value && it.value.sku == sku
                                       && forall j :: 0 <= j < i ==> rows[j].sku != sku
    {
      var i := Lookup.FirstIndex(rows, (x: Item) => x.sku == sku);
      if i < |rows| then Some(rows[i]) else None
    }

    /** `create_item`: refuses a SKU already present (`ValueError`), otherwise appends one item
        with the next id and returns it. */
    method CreateItem(name: string, sku: string, stock: int := 0) returns (r: Result<Item, string>)
      requires Valid()
      modifies this
      ensures Valid()
      ensures (exists i :: 0 <= i < |old(rows)| && old(rows)[i].sku == sku) ==>
                r == Failure(SKU_TAKEN) && rows == old(rows)
      ensures (forall i :: 0 <= i < |old(rows)| ==> old(rows)[i].sku != sku) ==>
                r == Success(Item(|old(rows)| + 1, name, sku, stock)) && rows == old(rows) + [r.value]
    {
      if GetItemBySku(sku).Some? {
        return Failure(SKU_TAKEN);
      }
      var item := Item(|rows| + 1, name, sku, stock);
      rows := rows + [item];
      r := Success(item);
    }
  }
}
