/**
 * The `sects` and `user_sect_contributions` tables of
 * `core/repositories/sqlite_sect_repo.py`.
 */
module SectRepo {
  import opened Wrappers
  import opened Models

  /** A stored `sects` row; the defaulted columns may be NULL. */
  datatype SectRow = SectRow(
    id: int,
    name: string,
    description: Option<string>,
    founderId: Option<string>,
    createdAt: int,
    memberCount: Option<int>,
    contribution: Option<int>,
    isActive: Option<bool>)

  /** A `user_sect_contributions` row, keyed by `(user_id, sect_id)`. */
  datatype ContributionRow = ContributionRow(id: int, contribution: Option<int>, lastContributionAt: int)

  /** The `Sect` a row decodes to: member_count `or 1`, contribution `or 0`, is_active TRUE when NULL. */
  function Decode(row: SectRow): (s: Sect)
    ensures s.id == row.id && s.name == row.name && s.createdAt == Some(row.createdAt)
    ensures s.memberCount == if row.memberCount.Some? && row.memberCount.value != 0 then row.memberCount.value else 1
    ensures s.contribution == row.contribution.GetOr(0)
    ensures s.isActive == row.isActive.GetOr(true)
  {
    Sect(row.id, row.name, row.description, row.founderId, Some(row.createdAt),
         if row.memberCount.Some? && row.memberCount.value != 0 then row.memberCount.value else 1,
         row.contribution.GetOr(0), row.isActive.GetOr(true))
  }

  /** The row `create_sect` inserts: `is_active` takes its default. */
  function Inserted(s: Sect, id: int, now: int): SectRow {
    SectRow(id, s.name, s.description, s.founderId, now, Some(s.memberCount), Some(s.contribution), Some(true))
  }

  /** The row after `update_sect(s)`: description, founder, member count, contribution and activity. */
  function Written(row: SectRow, s: Sect): (r: SectRow)
    ensures r.id == row.id && r.name == row.name && r.createdAt == row.createdAt
  {
    row.(description := s.description, founderId := s.founderId, memberCount := Some(s.memberCount),
         contribution := Some(s.contribution), isActive := Some(s.isActive))
  }

  /** Reading a sect back after `update_sect` gives the written values, a member count of 0 reading as 1. */
  lemma ReadAfterUpdate(row: SectRow, s: Sect)
    requires s.id == row.id && s.name == row.name
    ensures Decode(Written(row, s)) == s.(createdAt := Some(row.createdAt),
                                          memberCount := if s.memberCount != 0 then s.memberCount else 1)
  {
  }

  /** No row carries `name`. */
  predicate NameFree(rows: seq<SectRow>, name: string) {
    forall i :: 0 <= i < |rows| ==> rows[i].name != name
  }

  /** The index of the first row with this id. */
  function IndexOfId(rows: seq<SectRow>, id: int): (r: Option<nat>)
    ensures r.None? <==> forall i :: 0 <= i < |rows| ==> rows[i].id != id
    ensures r.Some? ==> r.value < |rows| && rows[r.value].id == id
    ensures r.Some? ==> forall i :: 0 <= i < r.value ==> rows[i].id != id
  {
    if |rows| == 0 then None
    else if rows[0].id == id then Some(0)
    else match IndexOfId(rows[1..], id)
      case None => None
      case Some(k) => Some(k + 1)
  }

  /** The index of the first row with this name. */
  function IndexOfName(rows: seq<SectRow>, name: string): (r: Option<nat>)
    ensures r.None? <==> NameFree(rows, name)
    ensures r.Some? ==> r.value < |rows| && rows[r.value].name == name
  {
    if |rows| == 0 then None
    else if rows[0].name == name then Some(0)
    else match IndexOfName(rows[1..], name)
      case None => None
      case Some(k) => Some(k + 1)
  }

  /** The contribution rows after `add_user_contribution`: `(row or 0) + c`, or a new row of `c`. */
  function Contributed(rows: map<(string, int), ContributionRow>, userId: string, sectId: int, amount: int,
                       freshId: int, now: int): (r: map<(string, int), ContributionRow>)
    ensures (userId, sectId) in r && r[(userId, sectId)].lastContributionAt == now
    ensures r[(userId, sectId)].contribution
            == Some((if (userId, sectId) in rows then rows[(userId, sectId)].contribution.GetOr(0) else 0) + amount)
    ensures forall k :: k != (userId, sectId) ==> (k in r <==> k in rows) && (k in r ==> r[k] == rows[k])
  {
    var k := (userId, sectId);
    if k in rows then rows[k := ContributionRow(rows[k].id, Some(rows[k].contribution.GetOr(0) + amount), now)]
    else rows[k := ContributionRow(freshId, Some(amount), now)]
  }

  /** The table after `update_sect(s)`: every row with the sect's id is rewritten, the rest kept. */
  function UpdatedSects(rows: seq<SectRow>, s: Sect): (r: seq<SectRow>)
    ensures |r| == |rows|
    ensures forall i :: 0 <= i < |rows| ==> r[i] == if rows[i].id == s.id then Written(rows[i], s) else rows[i]
  {
    if |rows| == 0 then []
    else [if rows[0].id == s.id then Written(rows[0], s) else rows[0]] + UpdatedSects(rows[1..], s)
  }

  /** `update_sect` keeps every row's id and name. */
  lemma SameKeys(rows: seq<SectRow>, s: Sect)
    ensures var r := UpdatedSects(rows, s);
            forall k :: 0 <= k < |rows| ==> r[k].id == rows[k].id && r[k].name == rows[k].name
  {
  }

  /** A sect's total after `contribution = contribution + ?`: NULL plus anything stays NULL. */
  function BumpedTotal(total: Option<int>, amount: int): Option<int> {
    match total
    case Some(c) => Some(c + amount)
    case None => None
  }

  /** The table after adding `amount` to the total of every row with id `sectId`. */
  function Bumped(rows: seq<SectRow>, sectId: int, amount: int): (r: seq<SectRow>)
    ensures |r| == |rows|
    ensures forall i :: 0 <= i < |rows| ==>
              r[i] == if rows[i].id == sectId then rows[i].(contribution := BumpedTotal(rows[i].contribution, amount)) else rows[i]
  {
    if |rows| == 0 then []
    else [if rows[0].id == sectId then rows[0].(contribution := BumpedTotal(rows[0].contribution, amount)) else rows[0]]
         + Bumped(rows[1..], sectId, amount)
  }

  /** The decoded rows stored as active (`is_active = TRUE`), in table order. */
  function ActiveSects(rows: seq<SectRow>): (r: seq<Sect>)
    ensures |r| <= |rows|
    ensures forall s :: s in r <==> exists i :: 0 <= i < |rows| && rows[i].isActive == Some(true) && s == Decode(rows[i])
  {
    if |rows| == 0 then []
    else
      var init, last := rows[..|rows| - 1], rows[|rows| - 1];
      assert forall i :: 0 <= i < |init| ==> init[i] == rows[i];
      ActiveSects(init) + (if last.isActive == Some(true) then [Decode(last)] else [])
  }

  class SectRepository {
    var sects: seq<SectRow>
    var nextSectId: int
    var contributions: map<(string, int), ContributionRow>
    var nextContributionId: int

    /** Sect names are unique and sect ids increase and stay below the next id. */
    ghost predicate Valid()
      reads this
    {
      && (forall i, j :: 0 <= i < j < |sects| ==> sects[i].name != sects[j].name && sects[i].id < sects[j].id)
      && (forall i :: 0 <= i < |sects| ==> sects[i].id < nextSectId)
    }

    constructor ()
      ensures Valid() && sects == [] && contributions == map[]
    {
      sects, nextSectId := [], 1;
      contributions, nextContributionId := map[], 1;
    }

    /** `create_sect`: a name already present is an integrity error, reported as false, and inserts nothing. */
    method CreateSect(s: Sect, now: int) returns (ok: bool)
      requires Valid()
      modifies this`sects, this`nextSectId
      ensures Valid()
      ensures ok <==> NameFree(old(sects), s.name)
      ensures sects == if ok then old(sects) + [Inserted(s, old(nextSectId), now)] else old(sects)
      ensures nextSectId == if ok then old(nextSectId) + 1 else old(nextSectId)
    {
      ok := NameFree(sects, s.name);
      if ok {
        sects := sects + [Inserted(s, nextSectId, now)];
        nextSectId := nextSectId + 1;
      }
    }

    /** `get_by_id` */
    function GetById(id: int): (r: Option<Sect>)
      reads this
      ensures r.None? <==> forall i :: 0 <= i < |sects| ==> sects[i].id != id
      ensures r.Some? ==> exists i :: 0 <= i < |sects| && sects[i].id == id && r.value == Decode(sects[i])
    {
      match IndexOfId(sects, id)
      case None => None
      case Some(i) => Some(Decode(sects[i]))
    }

    /** `get_by_name` (active or not) */
    function GetByName(name: string): (r: Option<Sect>)
      reads this
      ensures r.None? <==> NameFree(sects, name)
      ensures r.Some? ==> exists i :: 0 <= i < |sects| && sects[i].name == name && r.value == Decode(sects[i])
    {
      match IndexOfName(sects, name)
      case None => None
      case Some(i) => Some(Decode(sects[i]))
    }

    /** `get_all_sects`: `WHERE is_active = TRUE`, so a NULL activity is left out although it decodes as active. */
    method GetAllSects() returns (r: seq<Sect>)
      ensures r == ActiveSects(sects)
      ensures forall s :: s in r <==> exists i :: 0 <= i < |sects| && sects[i].isActive == Some(true) && s == Decode(sects[i])
    {
      r := [];
      var i := 0;
      while i < |sects|
        invariant 0 <= i <= |sects|
        invariant r == ActiveSects(sects[..i])
      {
        assert sects[..i + 1][..i] == sects[..i];
        if sects[i].isActive == Some(true) {
          r := r + [Decode(sects[i])];
        }
        i := i + 1;
      }
      assert sects[..i] == sects;
    }

    /** `update_sect`: true exactly when a row has the sect's id. */
    method UpdateSect(s: Sect) returns (ok: bool)
      requires Valid()
      modifies this`sects
      ensures Valid()
      ensures ok <==> exists i :: 0 <= i < |old(sects)| && old(sects)[i].id == s.id
      ensures sects == UpdatedSects(old(sects), s)
    {
      var rows := sects;
      var i := 0;
      var updated: seq<SectRow> := [];
      ok := false;
      while i < |rows|
        invariant 0 <= i <= |rows|
        invariant |updated| == i
        invariant forall k :: 0 <= k < i ==> updated[k] == if rows[k].id == s.id then Written(rows[k], s) else rows[k]
        invariant ok <==> exists k :: 0 <= k < i && rows[k].id == s.id
      {
        if rows[i].id == s.id {
          updated := updated + [Written(rows[i], s)];
          ok := true;
        } else {
          updated := updated + [rows[i]];
        }
        i := i + 1;
      }
      assert updated == UpdatedSects(rows, s);
      SameKeys(rows, s);
      sects := updated;
    }

    /**
     * `add_user_contribution`: accumulates into the user's row for the sect (or inserts it),
     * then adds the amount to the sect's total, which stays NULL if it was NULL.
     */
    method AddUserContribution(userId: string, sectId: int, amount: int, now: int) returns (ok: bool)
      requires Valid()
      modifies this
      ensures Valid()
      ensures ok
      ensures contributions == Contributed(old(contributions), userId, sectId, amount, old(nextContributionId), now)
      ensures sects == Bumped(old(sects), sectId, amount)
      ensures nextContributionId == if (userId, sectId) in old(contributions) then old(nextContributionId) else old(nextContributionId) + 1
      ensures nextSectId == old(nextSectId)
    {
      var k := (userId, sectId);
      if k in contributions {
        contributions := contributions[k := ContributionRow(contributions[k].id,
                                                            Some(contributions[k].contribution.GetOr(0) + amount), now)];
      } else {
        contributions := contributions[k := ContributionRow(nextContributionId, Some(amount), now)];
        nextContributionId := nextContributionId + 1;
      }
      var i := 0;
      var updated: seq<SectRow> := [];
      while i < |sects|
        invariant 0 <= i <= |sects|
        invariant |updated| == i
        invariant forall j :: 0 <= j < i ==>
                    updated[j] == if sects[j].id == sectId
                                  then sects[j].(contribution := BumpedTotal(sects[j].contribution, amount))
                                  else sects[j]
      {
        if sects[i].id == sectId {
          updated := updated + [sects[i].(contribution := BumpedTotal(sects[i].contribution, amount))];
        } else {
          updated := updated + [sects[i]];
        }
        i := i + 1;
      }
      sects := updated;
      ok := true;
    }

    /** `get_user_contribution` */
    function GetUserContribution(userId: string, sectId: int): (r: Option<UserSectContribution>)
      reads this
      ensures r.Some? <==> (userId, sectId) in contributions
      ensures r.Some? ==> r.value.contribution == contributions[(userId, sectId)].contribution.GetOr(0)
                          && r.value.userId == userId && r.value.sectId == sectId
    {
      if (userId, sectId) in contributions then
        var row := contributions[(userId, sectId)];
        Some(UserSectContribution(row.id, userId, sectId, row.contribution.GetOr(0), Some(row.lastContributionAt)))
      else None
    }
  }

  /** Two contributions to the same sect by the same user add up in the user's row. */
  lemma ContributionsAccumulate(rows: map<(string, int), ContributionRow>, userId: string, sectId: int,
                                a: int, b: int, id1: int, id2: int, t1: int, t2: int)
    ensures var once := Contributed(rows, userId, sectId, a, id1, t1);
            var twice := Contributed(once, userId, sectId, b, id2, t2);
            twice[(userId, sectId)].contribution.GetOr(0)
              == (if (userId, sectId) in rows then rows[(userId, sectId)].contribution.GetOr(0) else 0) + a + b
  {
  }
}
