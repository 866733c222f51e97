/**
 * The `user_items` table of `core/repositories/sqlite_inventory_repo.py`: one row per
 * `(user_id, item_id)` holding a quantity. `add_item` and `remove_item` read that row and
 * then update, insert or delete it.
 */
module InventoryRepo {
  import opened Wrappers
  import opened Models

  /** `(user_id, item_id)`; `add_item` never creates a second row for a pair. */
  type Slot = (string, int)

  /** The stored columns of a `user_items` row besides its key. */
  datatype Row = Row(id: int, quantity: int, obtainedAt: int)

  /** How many of the item the user holds; 0 without a row. */
  function Held(rows: map<Slot, Row>, userId: string, itemId: int): int {
    if (userId, itemId) in rows then rows[(userId, itemId)].quantity else 0
  }

  /** `has_item`: a row exists and holds at least `quantity`. */
  predicate Has(rows: map<Slot, Row>, userId: string, itemId: int, quantity: int) {
    (userId, itemId) in rows && rows[(userId, itemId)].quantity >= quantity
  }

  /** The table after `add_item`; a new row takes the id `freshId` and the time `now`. */
  function Added(rows: map<Slot, Row>, userId: string, itemId: int, quantity: int, freshId: int, now: int)
    : (r: map<Slot, Row>)
    ensures (userId, itemId) in r
    ensures Held(r, userId, itemId) == Held(rows, userId, itemId) + quantity
    ensures (userId, itemId) in rows ==> r[(userId, itemId)] == rows[(userId, itemId)].(quantity := r[(userId, itemId)].quantity)
    ensures (userId, itemId) !in rows ==> r[(userId, itemId)] == Row(freshId, quantity, now)
    ensures forall s :: s != (userId, itemId) ==> (s in r <==> s in rows) && (s in r ==> r[s] == rows[s])
  {
    var k := (userId, itemId);
    if k in rows then rows[k := rows[k].(quantity := rows[k].quantity + quantity)]
    else rows[k := Row(freshId, quantity, now)]
  }

  /**
   * The table after `remove_item`, or None when it returns False: no row, or fewer held
   * than asked for. Taking exactly what is held deletes the row.
   */
  function Removed(rows: map<Slot, Row>, userId: string, itemId: int, quantity: int): (r: Option<map<Slot, Row>>)
    ensures r.Some? <==> Has(rows, userId, itemId, quantity)
    ensures r.Some? ==> ((userId, itemId) in r.value <==> rows[(userId, itemId)].quantity != quantity)
    ensures r.Some? ==> Held(r.value, userId, itemId) == Held(rows, userId, itemId) - quantity
    ensures r.Some? && (userId, itemId) in r.value ==>
              r.value[(userId, itemId)] == rows[(userId, itemId)].(quantity := rows[(userId, itemId)].quantity - quantity)
    ensures r.Some? ==> forall s :: s != (userId, itemId) ==> (s in r.value <==> s in rows) && (s in r.value ==> r.value[s] == rows[s])
  {
    var k := (userId, itemId);
    if k !in rows then None
    else if rows[k].quantity < quantity then None
    else if rows[k].quantity == quantity then Some(rows - {k})
    else Some(rows[k := rows[k].(quantity := rows[k].quantity - quantity)])
  }

  /** Every stored quantity is positive. */
  predicate PositiveStock(rows: map<Slot, Row>) {
    forall s :: s in rows ==> rows[s].quantity > 0
  }

  /**
   * `add_item(u, i, q)` followed by `remove_item(u, i, q)` with `q >= 1` gives back the
   * table as it was: the row's old quantity, or no row if there was none.
   */
  lemma AddThenRemoveRestores(rows: map<Slot, Row>, userId: string, itemId: int, quantity: int, freshId: int, now: int)
    requires quantity >= 1
    requires PositiveStock(rows)
    ensures Removed(Added(rows, userId, itemId, quantity, freshId, now), userId, itemId, quantity) == Some(rows)
  {
    var k := (userId, itemId);
    var a := Added(rows, userId, itemId, quantity, freshId, now);
    var r := Removed(a, userId, itemId, quantity);
    assert r.Some?;
    if k in rows {
      assert k in r.value;
      assert r.value[k] == rows[k];
    } else {
      assert k !in r.value;
    }
    assert r.value.Keys == rows.Keys;
    forall s | s in rows ensures r.value[s] == rows[s] {
    }
    assert r.value == rows;
  }

  /** Adding a positive quantity and removing a positive quantity both keep every stored quantity positive. */
  lemma StockStaysPositive(rows: map<Slot, Row>, userId: string, itemId: int, quantity: int, freshId: int, now: int)
    requires PositiveStock(rows) && quantity >= 1
    ensures PositiveStock(Added(rows, userId, itemId, quantity, freshId, now))
    ensures Removed(rows, userId, itemId, quantity).Some? ==> PositiveStock(Removed(rows, userId, itemId, quantity).value)
  {
  }

  /** The `UserItem` a row decodes to; a stored timestamp always reads back. */
  function Decode(k: Slot, row: Row): (u: UserItem)
    ensures u.userId == k.0 && u.itemId == k.1 && u.quantity == row.quantity && u.id == row.id
  {
    UserItem(row.id, k.0, k.1, row.quantity, Some(row.obtainedAt))
  }

  class InventoryRepository {
    var rows: map<Slot, Row>
    var nextId: int

    /** Row ids are below the next id handed out. */
    ghost predicate Valid()
      reads this
    {
      forall s :: s in rows ==> rows[s].id < nextId
    }

    constructor ()
      ensures Valid() && rows == map[]
    {
      rows, nextId := map[], 1;
    }

    /** `add_item`: raises the existing row by `quantity`, or inserts one; always reports success. */
    method AddItem(userId: string, itemId: int, quantity: int, now: int) returns (ok: bool)
      requires Valid()
      modifies this
      ensures Valid()
      ensures ok
      ensures rows == Added(old(rows), userId, itemId, quantity, old(nextId), now)
    {
      var k := (userId, itemId);
      if k in rows {
        rows := rows[k := rows[k].(quantity := rows[k].quantity + quantity)];
      } else {
        rows := rows[k := Row(nextId, quantity, now)];
        nextId := nextId + 1;
      }
      ok := true;
    }

    /** `remove_item`: succeeds exactly when `has_item` holds for the same arguments. */
    method RemoveItem(userId: string, itemId: int, quantity: int) returns (ok: bool)
      modifies this`rows
      ensures ok <==> Has(old(rows), userId, itemId, quantity)
      ensures rows == if ok then Removed(old(rows), userId, itemId, quantity).value else old(rows)
    {
      var k := (userId, itemId);
      if k !in rows {
        return false;
      }
      var current := rows[k].quantity;
      if current < quantity {
        return false;
      }
      if current == quantity {
        rows := rows - {k};
      } else {
        rows := rows[k := rows[k].(quantity := current - quantity)];
      }
      ok := true;
    }

    /** `get_user_item` */
    function GetUserItem(userId: string, itemId: int): (r: Option<UserItem>)
      reads this
      ensures r.Some? <==> (userId, itemId) in rows
      ensures r.Some? ==> r.value == Decode((userId, itemId), rows[(userId, itemId)])
    {
      if (userId, itemId) in rows then Some(Decode((userId, itemId), rows[(userId, itemId)])) else None
    }

    /** `has_item`: the user's row exists and holds at least `quantity`. */
    function HasItem(userId: string, itemId: int, quantity: int): (b: bool)
      reads this
      ensures b <==> Has(rows, userId, itemId, quantity)
    {
      var got := GetUserItem(userId, itemId);
      got.Some? && got.value.quantity >= quantity
    }

    /** `get_user_items`: the decoded rows of this user and of no other, each once. */
    method GetUserItems(userId: string) returns (r: seq<UserItem>)
      ensures forall x :: x in r <==> ((x.userId, x.itemId) in rows && x.userId == userId
                                      && x == Decode((x.userId, x.itemId), rows[(x.userId, x.itemId)]))
      ensures forall i, j :: 0 <= i < j < |r| ==> r[i].itemId != r[j].itemId
    {
      var rest := rows.Keys;
      r := [];
      while rest != {}
        invariant rest <= rows.Keys
        invariant forall x :: x in r <==> ((x.userId, x.itemId) in rows.Keys - rest && x.userId == userId
                                          && x == Decode((x.userId, x.itemId), rows[(x.userId, x.itemId)]))
        invariant forall i, j :: 0 <= i < j < |r| ==> r[i].itemId != r[j].itemId
        decreases rest
      {
        var k :| k in rest;
        if k.0 == userId {
          assert forall x :: x in r ==> x.itemId != k.1;
          r := r + [Decode(k, rows[k])];
        }
        assert rows.Keys - (rest - {k}) == (rows.Keys - rest) + {k};
        rest := rest - {k};
      }
    }
  }
}
