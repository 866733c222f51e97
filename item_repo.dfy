/**
 * The `items` table of `core/repositories/sqlite_item_repo.py`: item templates with
 * autoincrement ids and unique names.
 */
module ItemRepo {
  import opened Wrappers
  import opened Models

  /** A stored `items` row; `rarity` may be NULL. */
  datatype ItemRow = ItemRow(
    id: int,
    name: string,
    itemType: string,
    description: Option<string>,
    rarity: Option<int>,
    effect: Option<string>,
    effectType: Option<string>,
    effectHundredths: Option<int>,
    requirement: Option<string>,
    createdAt: int)

  /** `row[4] or 1`: a NULL or zero rarity reads as 1. */
  function RarityOf(stored: Option<int>): (r: int)
    ensures stored.Some? && stored.value != 0 ==> r == stored.value
    ensures stored.None? || stored.value == 0 ==> r == 1
    ensures r != 0
  {
    if stored.Some? && stored.value != 0 then stored.value else 1
  }

  /** The `Item` a row decodes to. */
  function Decode(row: ItemRow): (it: Item)
    ensures it.id == row.id && it.name == row.name && it.itemType == row.itemType
    ensures it.rarity == RarityOf(row.rarity) && it.createdAt == Some(row.createdAt)
  {
    Item(row.id, row.name, row.itemType, row.description, RarityOf(row.rarity), row.effect, row.effectType,
         row.effectHundredths, row.requirement, Some(row.createdAt))
  }

  /** The row `create_item` inserts for `item`: its own id and creation time are not written. */
  function Inserted(item: Item, id: int, now: int): (row: ItemRow)
    ensures row.id == id && row.name == item.name
  {
    ItemRow(id, item.name, item.itemType, item.description, Some(item.rarity), item.effect, item.effectType,
            item.effectHundredths, item.requirement, now)
  }

  /** No two rows share a name (`name TEXT UNIQUE`). */
  ghost predicate NamesUnique(rows: seq<ItemRow>) {
    forall i, j :: 0 <= i < j < |rows| ==> rows[i].name != rows[j].name
  }

  /** No row carries `name`. */
  predicate NameFree(rows: seq<ItemRow>, name: string) {
    forall i :: 0 <= i < |rows| ==> rows[i].name != name
  }

  /** The first row with this name: `SELECT * FROM items WHERE name = ?` and `fetchone`. */
  function FindByName(rows: seq<ItemRow>, name: string): (r: Option<ItemRow>)
    ensures r.None? <==> NameFree(rows, name)
    ensures r.Some? ==> r.value in rows && r.value.name == name
  {
    if |rows| == 0 then None
    else if rows[0].name == name then Some(rows[0])
    else
      var r := FindByName(rows[1..], name);
      assert forall i :: 1 <= i < |rows| ==> rows[i] == rows[1..][i - 1];
      r
  }

  /** The first row with this id. */
  function FindById(rows: seq<ItemRow>, id: int): (r: Option<ItemRow>)
    ensures r.None? <==> forall i :: 0 <= i < |rows| ==> rows[i].id != id
    ensures r.Some? ==> r.value in rows && r.value.id == id
  {
    if |rows| == 0 then None
    else if rows[0].id == id then Some(rows[0])
    else
      var r := FindById(rows[1..], id);
      assert forall i :: 1 <= i < |rows| ==> rows[i] == rows[1..][i - 1];
      r
  }

  /** Looking a name up after appending a row of a new name finds that row. */
  lemma {:induction false} FindAppended(rows: seq<ItemRow>, row: ItemRow)
    requires NameFree(rows, row.name)
    ensures FindByName(rows + [row], row.name) == Some(row)
  {
    if |rows| > 0 {
      assert (rows + [row])[1..] == rows[1..] + [row];
      FindAppended(rows[1..], row);
    }
  }

  /**
   * `create_item` followed by `get_by_name` gives back the template as given: the same name,
   * type, description, effect, effect type, effect value and requirement, a rarity of 0
   * reading as 1, under the new row's id and creation time.
   */
  lemma CreateThenGetByName(rows: seq<ItemRow>, item: Item, id: int, now: int)
    requires NameFree(rows, item.name)
    ensures FindByName(rows + [Inserted(item, id, now)], item.name).Some?
    ensures Decode(FindByName(rows + [Inserted(item, id, now)], item.name).value)
            == item.(id := id, rarity := RarityOf(Some(item.rarity)), createdAt := Some(now))
  {
    FindAppended(rows, Inserted(item, id, now));
  }

  /** The decoded rows of type `t`, in table order. */
  function OfType(rows: seq<ItemRow>, t: string): (r: seq<Item>)
    ensures |r| <= |rows|
    ensures forall x :: x in r <==> exists i :: 0 <= i < |rows| && rows[i].itemType == t && x == Decode(rows[i])
  {
    if |rows| == 0 then []
    else
      var init, last := rows[..|rows| - 1], rows[|rows| - 1];
      assert forall i :: 0 <= i < |init| ==> init[i] == rows[i];
      OfType(init, t) + (if last.itemType == t then [Decode(last)] else [])
  }

  class ItemRepository {
    var rows: seq<ItemRow>
    var nextId: int

    /** Names are unique; ids increase in insertion order and stay below the next id. */
    ghost predicate Valid()
      reads this
    {
      && NamesUnique(rows)
      && (forall i, j :: 0 <= i < j < |rows| ==> rows[i].id < rows[j].id)
      && (forall i :: 0 <= i < |rows| ==> rows[i].id < nextId)
    }

    constructor ()
      ensures Valid() && rows == []
    {
      rows, nextId := [], 1;
    }

    /** `create_item`: a name already present raises an integrity error, reported as false, and inserts nothing. */
    method CreateItem(item: Item, now: int) returns (ok: bool)
      requires Valid()
      modifies this
      ensures Valid()
      ensures ok <==> NameFree(old(rows), item.name)
      ensures rows == if ok then old(rows) + [Inserted(item, old(nextId), now)] else old(rows)
      ensures nextId == if ok then old(nextId) + 1 else old(nextId)
    {
      ok := NameFree(rows, item.name);
      if ok {
        rows := rows + [Inserted(item, nextId, now)];
        nextId := nextId + 1;
      }
    }

    /** `get_by_id` */
    function GetById(id: int): (r: Option<Item>)
      reads this
      ensures r.None? <==> forall i :: 0 <= i < |rows| ==> rows[i].id != id
      ensures r.Some? ==> exists i :: 0 <= i < |rows| && rows[i].id == id && r.value == Decode(rows[i])
    {
      match FindById(rows, id)
      case None => None
      case Some(row) => Some(Decode(row))
    }

    /** `get_by_name` */
    function GetByName(name: string): (r: Option<Item>)
      reads this
      ensures r.None? <==> NameFree(rows, name)
      ensures r.Some? ==> exists i :: 0 <= i < |rows| && rows[i].name == name && r.value == Decode(rows[i])
    {
      match FindByName(rows, name)
      case None => None
      case Some(row) => Some(Decode(row))
    }

    /** `get_items_by_type`: the decoded rows of exactly this type, each once and in table order. */
    method GetItemsByType(itemType: string) returns (r: seq<Item>)
      ensures r == OfType(rows, itemType)
      ensures forall x :: x in r <==> exists i :: 0 <= i < |rows| && rows[i].itemType == itemType && x == Decode(rows[i])
    {
      r := [];
      var i := 0;
      while i < |rows|
        invariant 0 <= i <= |rows|
        invariant r == OfType(rows[..i], itemType)
      {
        assert rows[..i + 1][..i] == rows[..i];
        if rows[i].itemType == itemType {
          r := r + [Decode(rows[i])];
        }
        i := i + 1;
      }
      assert rows[..i] == rows;
    }

    /** `get_all_items`: every row decoded, in table order. */
    method GetAllItems() returns (r: seq<Item>)
      ensures |r| == |rows|
      ensures forall i :: 0 <= i < |rows| ==> r[i] == Decode(rows[i])
    {
      r := [];
      var i := 0;
      while i < |rows|
        invariant 0 <= i <= |rows|
        invariant |r| == i
        invariant forall k :: 0 <= k < i ==> r[k] == Decode(rows[k])
      {
        r := r + [Decode(rows[i])];
        i := i + 1;
      }
    }
  }
}
