/**
 * The `logs` table of `core/repositories/sqlite_log_repo.py`: an append-only list of
 * `(user, type, content)` entries stamped with the time of insertion.
 */
module LogRepo {
  import opened Wrappers
  import opened Models
  import opened Ordering

  datatype LogRow = LogRow(id: int, userId: string, logType: string, content: string, createdAt: int)

  /** A stored timestamp always reads back. */
  function Decode(row: LogRow): (l: Log)
    ensures l.id == row.id && l.userId == row.userId && l.logType == row.logType && l.content == row.content
    ensures l.createdAt == Some(row.createdAt)
  {
    Log(row.id, row.userId, row.logType, row.content, Some(row.createdAt))
  }

  /** The ordering key of both queries: `created_at`. */
  function CreatedAt(l: Log): int {
    l.createdAt.GetOr(0)
  }

  /** The user's entries, restricted to `logType` when one is given (`if log_type:`). */
  predicate Selected(l: Log, userId: string, logType: Option<string>) {
    l.userId == userId && (Truthy(logType) ==> l.logType == logType.value)
  }

  class LogRepository {
    var rows: seq<LogRow>
    var nextId: int

    /** Ids increase in insertion order and stay below the next id. */
    ghost predicate Valid()
      reads this
    {
      (forall i, j :: 0 <= i < j < |rows| ==> rows[i].id < rows[j].id)
      && (forall i :: 0 <= i < |rows| ==> rows[i].id < nextId)
    }

    constructor ()
      ensures Valid() && rows == []
    {
      rows, nextId := [], 1;
    }

    /** `add_log`: appends exactly one entry and reports success. */
    method AddLog(userId: string, logType: string, content: string, now: int) returns (ok: bool)
      requires Valid()
      modifies this
      ensures Valid()
      ensures ok
      ensures rows == old(rows) + [LogRow(old(nextId), userId, logType, content, now)]
    {
      rows := rows + [LogRow(nextId, userId, logType, content, now)];
      nextId := nextId + 1;
      ok := true;
    }

    /** The decoded entries, in table order: all of them when `everyone`, else the selected ones. */
    method Collect(userId: string, logType: Option<string>, everyone: bool) returns (found: seq<Log>)
      requires Valid()
      ensures forall l :: l in found <==> exists i :: 0 <= i < |rows| && l == Decode(rows[i])
                                                      && (everyone || Selected(l, userId, logType))
      ensures forall i, j :: 0 <= i < j < |found| ==> found[i].id != found[j].id
    {
      found := [];
      var i := 0;
      while i < |rows|
        invariant 0 <= i <= |rows|
        invariant forall l :: l in found <==> exists k :: 0 <= k < i && l == Decode(rows[k])
                                                          && (everyone || Selected(l, userId, logType))
        invariant forall a, b :: 0 <= a < b < |found| ==> found[a].id != found[b].id
      {
        var l := Decode(rows[i]);
        if everyone || Selected(l, userId, logType) {
          assert forall m :: m in found ==> m.id < rows[i].id;
          found := found + [l];
        }
        i := i + 1;
      }
    }

    /** The entry `l` is stored. */
    ghost predicate Stored(l: Log)
      reads this
    {
      exists i :: 0 <= i < |rows| && l == Decode(rows[i])
    }

    /**
     * `get_user_logs`: only this user's entries (only of `logType` when it is non-empty),
     * newest first, each entry once, at most `limit` (50 unless the caller says otherwise); no matching
     * entry left out is newer than one returned.
     */
    method GetUserLogs(userId: string, logType: Option<string> := None, limit: int := 50) returns (r: seq<Log>)
      requires Valid()
      ensures SortedDesc(r, CreatedAt)
      ensures forall i, j :: 0 <= i < j < |r| ==> r[i].id != r[j].id
      ensures limit >= 0 ==> |r| <= limit
      ensures forall l :: l in r ==> Stored(l) && Selected(l, userId, logType)
      ensures forall l, m :: Stored(l) && Selected(l, userId, logType) && l !in r && m in r ==> CreatedAt(m) >= CreatedAt(l)
      ensures limit < 0 ==> forall l :: Stored(l) && Selected(l, userId, logType) ==> l in r
      ensures (exists l :: Stored(l) && Selected(l, userId, logType) && l !in r) ==> |r| == limit
    {
      var found := Collect(userId, logType, false);
      r := TopBy(found, CreatedAt, limit);
      DistinctBySub(found, r, (l: Log) => l.id);
      forall l, m | Stored(l) && Selected(l, userId, logType) && l !in r && m in r
        ensures CreatedAt(m) >= CreatedAt(l)
      {
        assert l in found;
      }
    }

    /** `get_recent_logs`: every user's entries, newest first, each once, at most `limit` (10 by default). */
    method GetRecentLogs(limit: int := 10) returns (r: seq<Log>)
      requires Valid()
      ensures SortedDesc(r, CreatedAt)
      ensures forall i, j :: 0 <= i < j < |r| ==> r[i].id != r[j].id
      ensures limit >= 0 ==> |r| <= limit
      ensures forall l :: l in r ==> Stored(l)
      ensures forall l, m :: Stored(l) && l !in r && m in r ==> CreatedAt(m) >= CreatedAt(l)
      ensures limit < 0 ==> forall l :: Stored(l) ==> l in r
      ensures (exists l :: Stored(l) && l !in r) ==> |r| == limit
    {
      var found := Collect("", None, true);
      r := TopBy(found, CreatedAt, limit);
      DistinctBySub(found, r, (l: Log) => l.id);
      forall l, m | Stored(l) && l !in r && m in r
        ensures CreatedAt(m) >= CreatedAt(l)
      {
        assert l in found;
      }
    }
  }
}
