/**
 * The `users` table of `core/repositories/sqlite_user_repo.py`, keyed by the unique
 * `user_id`, with the defaults a row's columns decode to.
 */
module UserRepo {
  import opened Wrappers
  import opened Models
  import opened Ordering

  /** The column default of `realm`, and what an empty or NULL realm reads as. */
  const DefaultRealm: string := "炼气一层"

  /** A stored `users` row; every nullable column is an `Option`. */
  datatype UserRow = UserRow(
    id: int,
    userId: string,
    nickname: Option<string>,
    avatar: Option<string>,
    createdAt: Option<int>,
    lastLoginAt: Option<int>,
    cultivation: Option<int>,
    realm: Option<string>,
    talent: Option<string>,
    daoName: Option<string>,
    sectId: Option<int>,
    sectPosition: Option<string>,
    isHermit: Option<bool>,
    isInClosing: Option<bool>,
    closingStartTime: Option<int>,
    closingDuration: Option<int>,
    deepClosingEndTime: Option<int>,
    lastClosingTime: Option<int>,
    lastBattleTime: Option<int>,
    lastSectRollCallTime: Option<int>,
    totalClosingCount: Option<int>,
    totalBattleCount: Option<int>,
    totalBattleWinCount: Option<int>,
    totalExpGained: Option<int>)

  /** `row[7] or "炼气一层"`: a NULL or empty realm reads as the default. */
  function RealmOf(stored: Option<string>): (r: string)
    ensures stored.Some? && stored.value != "" ==> r == stored.value
    ensures stored.None? || stored.value == "" ==> r == DefaultRealm
    ensures r != ""
  {
    if stored.Some? && stored.value != "" then stored.value else DefaultRealm
  }

  /** The `User` that `get_by_user_id` builds from a row. */
  function Decode(row: UserRow): (u: User)
    ensures u.id == row.id && u.userId == row.userId
    ensures u.realm == RealmOf(row.realm)
    ensures u.cultivation == row.cultivation.GetOr(0)
    ensures u.totalClosingCount == row.totalClosingCount.GetOr(0) && u.totalBattleCount == row.totalBattleCount.GetOr(0)
    ensures u.totalBattleWinCount == row.totalBattleWinCount.GetOr(0) && u.totalExpGained == row.totalExpGained.GetOr(0)
    ensures u.isHermit == row.isHermit.GetOr(false) && u.isInClosing == row.isInClosing.GetOr(false)
  {
    User(
      row.id, row.userId, row.nickname, row.createdAt, row.lastLoginAt,
      row.cultivation.GetOr(0), RealmOf(row.realm), row.talent, row.daoName, row.sectId, row.sectPosition,
      row.avatar, row.isHermit.GetOr(false), row.isInClosing.GetOr(false),
      row.closingStartTime, row.closingDuration, row.deepClosingEndTime,
      row.lastClosingTime, row.lastBattleTime, row.lastSectRollCallTime,
      row.totalClosingCount.GetOr(0), row.totalBattleCount.GetOr(0),
      row.totalBattleWinCount.GetOr(0), row.totalExpGained.GetOr(0))
  }

  /** The row `INSERT OR IGNORE INTO users (user_id, nickname)` creates: every other column takes its default. */
  function NewRow(id: int, userId: string, nickname: Option<string>, now: int): UserRow {
    UserRow(id, userId, nickname, None, Some(now), Some(now), Some(0), Some(DefaultRealm), None, None, None, None,
            Some(false), Some(false), None, None, None, None, None, None, Some(0), Some(0), Some(0), Some(0))
  }

  /** The row after `update_user(u)`: every column but `id`, `user_id` and `created_at` is overwritten. */
  function Written(row: UserRow, u: User): (r: UserRow)
    ensures r.id == row.id && r.userId == row.userId && r.createdAt == row.createdAt
  {
    row.(nickname := u.nickname, avatar := u.avatar, lastLoginAt := u.lastLoginAt,
         cultivation := Some(u.cultivation), realm := Some(u.realm), talent := u.talent, daoName := u.daoName,
         sectId := u.sectId, sectPosition := u.sectPosition, isHermit := Some(u.isHermit),
         isInClosing := Some(u.isInClosing), closingStartTime := u.closingStartTime,
         closingDuration := u.closingDuration, deepClosingEndTime := u.deepClosingEndTime,
         lastClosingTime := u.lastClosingTime, lastBattleTime := u.lastBattleTime,
         lastSectRollCallTime := u.lastSectRollCallTime, totalClosingCount := Some(u.totalClosingCount),
         totalBattleCount := Some(u.totalBattleCount), totalBattleWinCount := Some(u.totalBattleWinCount),
         totalExpGained := Some(u.totalExpGained))
  }

  /** The table after `update_user(u)`; without a row for `u`'s user id nothing changes. */
  function Updated(rows: map<string, UserRow>, u: User): (r: map<string, UserRow>)
    ensures r.Keys == rows.Keys
    ensures forall k :: k in rows && k != u.userId ==> r[k] == rows[k]
    ensures u.userId in rows ==> r[u.userId] == Written(rows[u.userId], u)
  {
    if u.userId in rows then rows[u.userId := Written(rows[u.userId], u)] else rows
  }

  /**
   * Reading a user back after `update_user` gives every written attribute as written,
   * except that an empty realm reads as the default; `id`, `user_id` and `created_at` keep
   * the stored values.
   */
  lemma ReadAfterUpdate(row: UserRow, u: User)
    requires u.userId == row.userId
    ensures Decode(Written(row, u)) == u.(id := row.id, createdAt := row.createdAt,
                                          realm := if u.realm == "" then DefaultRealm else u.realm)
  {
  }

  /** `WHERE cultivation > 0`; a NULL cultivation does not qualify. */
  predicate Ranked(row: UserRow) {
    row.cultivation.Some? && row.cultivation.value > 0
  }

  /** The ranking key. */
  function CultivationOf(u: User): int {
    u.cultivation
  }

  class UserRepository {
    var rows: map<string, UserRow>
    var nextId: int

    /** Each row sits under its own `user_id`; row ids are below the next id handed out. */
    ghost predicate Valid()
      reads this
    {
      forall k :: k in rows ==> rows[k].userId == k && rows[k].id < nextId
    }

    constructor ()
      ensures Valid() && rows == map[]
    {
      rows, nextId := map[], 1;
    }

    /** `get_by_user_id` */
    function GetByUserId(userId: string): (r: Option<User>)
      reads this
      ensures r.Some? <==> userId in rows
      ensures r.Some? ==> r.value == Decode(rows[userId])
    {
      if userId in rows then Some(Decode(rows[userId])) else None
    }

    /**
     * `create_user`: inserts a row with the column defaults unless the user exists, in which
     * case the stored row (nickname included) is left as it is; returns the stored user.
     */
    method CreateUser(userId: string, nickname: Option<string>, now: int) returns (u: User)
      requires Valid()
      modifies this
      ensures Valid()
      ensures userId in old(rows) ==> rows == old(rows) && nextId == old(nextId)
      ensures userId !in old(rows) ==> rows == old(rows)[userId := NewRow(old(nextId), userId, nickname, now)]
      ensures userId in rows && u == Decode(rows[userId])
    {
      if userId !in rows {
        rows := rows[userId := NewRow(nextId, userId, nickname, now)];
        nextId := nextId + 1;
      }
      u := Decode(rows[userId]);
    }

    /** `update_user`: true exactly when a row for the user exists. */
    method UpdateUser(u: User) returns (ok: bool)
      requires Valid()
      modifies this`rows
      ensures Valid()
      ensures ok <==> u.userId in old(rows)
      ensures rows == Updated(old(rows), u)
    {
      ok := u.userId in rows;
      rows := Updated(rows, u);
    }

    /** `x` is the decoded form of a stored user with positive cultivation. */
    ghost predicate Listed(x: User)
      reads this
    {
      x.userId in rows && Ranked(rows[x.userId]) && x == Decode(rows[x.userId])
    }

    /** The users `WHERE cultivation > 0`, each decoded, in no particular order. */
    method RankedUsers() returns (candidates: seq<User>)
      requires Valid()
      ensures forall x :: x in candidates <==> Listed(x)
      ensures forall i, j :: 0 <= i < j < |candidates| ==> candidates[i].userId != candidates[j].userId
    {
      var rest := rows.Keys;
      candidates := [];
      while rest != {}
        invariant rest <= rows.Keys
        invariant forall x :: x in candidates <==> Listed(x) && x.userId !in rest
        invariant forall i, j :: 0 <= i < j < |candidates| ==> candidates[i].userId != candidates[j].userId
        decreases rest
      {
        var k :| k in rest;
        if Ranked(rows[k]) {
          var x := Decode(rows[k]);
          assert x.userId == k;
          assert forall y :: y in candidates ==> y.userId != k;
          candidates := candidates + [x];
        }
        rest := rest - {k};
      }
    }

    /**
     * `get_cultivation_ranking`: users with positive cultivation, highest first, at most
     * `limit` of them (all of them for a negative `limit`); no user left out ranks above
     * one listed. `limit` defaults to 10, as in the source.
     */
    method GetCultivationRanking(limit: int := 10) returns (r: seq<User>)
      requires Valid()
      ensures SortedDesc(r, CultivationOf)
      ensures limit >= 0 ==> |r| <= limit
      ensures forall x :: x in r ==> Listed(x) && x.cultivation > 0
      ensures forall x, y :: Listed(x) && x !in r && y in r ==> y.cultivation >= x.cultivation
      ensures limit < 0 ==> forall x :: Listed(x) ==> x in r
      ensures (exists x :: Listed(x) && x !in r) ==> |r| == limit
      ensures forall i, j :: 0 <= i < j < |r| ==> r[i].userId != r[j].userId
    {
      var candidates := RankedUsers();
      r := TopBy(candidates, CultivationOf, limit);
      DistinctBySub(candidates, r, (x: User) => x.userId);
      forall x, y | Listed(x) && x !in r && y in r
        ensures y.cultivation >= x.cultivation
      {
        assert x in candidates;
        assert CultivationOf(y) >= CultivationOf(x);
      }
    }
  }
}
