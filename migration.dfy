/**
 * `run_migrations` of `core/database/migration.py`: the `.sql` files of the migrations
 * directory are applied in sorted name order, skipping names already recorded in the
 * `migrations` table, and each applied name is recorded.
 *
 * The scripts are not modelled, only whether reading one or running it raises. The
 * transaction rules of Python's `sqlite3` decide what a failure keeps. A recorded name's
 * INSERT stays pending until the next `executescript`, which commits first. So a script
 * that fails keeps every earlier name. A file that cannot be read rolls back the one
 * pending name.
 */
module Migration {
  import opened Wrappers
  import opened Text

  /** A directory entry: its name and whether it is a regular file. */
  datatype Entry = Entry(name: string, isFile: bool)

  /** The names of the regular files ending in `.sql`, in listing order. */
  function SqlFiles(entries: seq<Entry>): (r: seq<string>)
    ensures forall n :: n in r <==> exists i :: 0 <= i < |entries| && entries[i].name == n
                                              && EndsWith(n, ".sql") && entries[i].isFile
    ensures |r| <= |entries|
  {
    if |entries| == 0 then []
    else
      var rest := SqlFiles(entries[1..]);
      assert forall i :: 1 <= i < |entries| ==> entries[i] == entries[1..][i - 1];
      if EndsWith(entries[0].name, ".sql") && entries[0].isFile then [entries[0].name] + rest else rest
  }

  /** Names in non-decreasing string order. */
  predicate Sorted(s: seq<string>) {
    forall i, j :: 0 <= i < j < |s| ==> LexLe(s[i], s[j])
  }

  /** No name occurs twice. */
  predicate Distinct(s: seq<string>) {
    forall i, j :: 0 <= i < j < |s| ==> s[i] != s[j]
  }

  /** Inserts `x` before the first name it does not follow. */
  function InsertName(x: string, s: seq<string>): (r: seq<string>)
    requires Sorted(s)
    ensures Sorted(r)
    ensures multiset(r) == multiset(s) + multiset{x}
    ensures |r| == |s| + 1
  {
    if |s| == 0 then [x]
    else if LexLe(x, s[0]) then
      PrependSmallest(x, s);
      [x] + s
    else
      LexTotal(x, s[0]);
      var rest := InsertName(x, s[1..]);
      assert s == [s[0]] + s[1..];
      ConsAfterInsert(x, s, rest);
      [s[0]] + rest
  }

  /** A name that precedes the first of a sorted sequence may go before it. */
  lemma PrependSmallest(x: string, s: seq<string>)
    requires Sorted(s) && |s| > 0 && LexLe(x, s[0])
    ensures Sorted([x] + s)
  {
    forall j | 0 <= j < |s| ensures LexLe(x, s[j]) {
      if j > 0 { LexTrans(x, s[0], s[j]); }
    }
    var r := [x] + s;
    forall i, j | 0 <= i < j < |r| ensures LexLe(r[i], r[j]) {
      assert r[j] == s[j - 1];
      if i > 0 { assert r[i] == s[i - 1]; }
    }
  }

  /** The first of a sorted `s` may go before `x` inserted into the rest of `s`. */
  lemma ConsAfterInsert(x: string, s: seq<string>, rest: seq<string>)
    requires Sorted(s) && |s| > 0 && LexLe(s[0], x)
    requires Sorted(rest) && multiset(rest) == multiset(s[1..]) + multiset{x}
    ensures Sorted([s[0]] + rest)
  {
    var r := [s[0]] + rest;
    forall i, j | 0 <= i < j < |r| ensures LexLe(r[i], r[j]) {
      if i == 0 {
        FirstPrecedesInsert(x, s, rest, j - 1);
      } else {
        assert r[i] == rest[i - 1] && r[j] == rest[j - 1];
      }
    }
  }

  /** Every name of `rest`, which holds `x` and the tail of the sorted `s`, follows `s[0]`. */
  lemma FirstPrecedesInsert(x: string, s: seq<string>, rest: seq<string>, j: int)
    requires Sorted(s) && |s| > 0 && LexLe(s[0], x)
    requires multiset(rest) == multiset(s[1..]) + multiset{x}
    requires 0 <= j < |rest|
    ensures LexLe(s[0], rest[j])
  {
    assert rest[j] in multiset(rest);
    if rest[j] != x {
      assert rest[j] in multiset(s[1..]);
      var k :| 0 <= k < |s[1..]| && s[1..][k] == rest[j];
      assert s[k + 1] == rest[j];
    }
  }

  /** `sorted(names)` */
  function SortNames(s: seq<string>): (r: seq<string>)
    ensures Sorted(r)
    ensures multiset(r) == multiset(s)
  {
    if |s| == 0 then []
    else
      assert s == [s[0]] + s[1..];
      InsertName(s[0], SortNames(s[1..]))
  }

  /** The names of `files` not in `applied`, in order: the files the loop applies. */
  function ToApply(files: seq<string>, applied: set<string>): (r: seq<string>)
    ensures forall n :: n in r <==> n in files && n !in applied
    ensures Distinct(files) ==> Distinct(r)
    ensures (forall n :: n in files ==> n in applied) ==> r == []
  {
    if |files| == 0 then []
    else
      var rest := ToApply(files[1..], applied);
      assert forall n :: n in files <==> n == files[0] || n in files[1..];
      assert Distinct(files) ==> files[0] !in files[1..] && Distinct(files[1..]) by {
        if Distinct(files) {
          assert forall i, j :: 0 <= i < j < |files[1..]| ==> files[1..][i] == files[i + 1] && files[1..][j] == files[j + 1];
        }
      }
      if files[0] !in applied then [files[0]] + rest else rest
  }

  /** `pending`'s own name as a sequence. */
  function Opt(pending: Option<string>): seq<string> {
    if pending.Some? then [pending.value] else []
  }

  /**
   * The migrations table after applying `todo`, with the names in `committed` already
   * committed and `pending` recorded but not yet committed, and whether the run raises.
   */
  function Run(committed: seq<string>, pending: Option<string>, todo: seq<string>,
               unreadable: set<string>, broken: set<string>): (seq<string>, bool)
    decreases |todo|
  {
    if |todo| == 0 then (committed + Opt(pending), false)
    else if todo[0] in unreadable then (committed, true)
    else if todo[0] in broken then (committed + Opt(pending), true)
    else Run(committed + Opt(pending), Some(todo[0]), todo[1..], unreadable, broken)
  }

  /** No file of `todo` fails. */
  predicate Clean(todo: seq<string>, unreadable: set<string>, broken: set<string>) {
    forall n :: n in todo ==> n !in unreadable && n !in broken
  }

  /** Without failures every name of `todo` is recorded, in order, and nothing raises. */
  lemma {:induction false} CleanRunRecordsAll(committed: seq<string>, pending: Option<string>, todo: seq<string>,
                                              unreadable: set<string>, broken: set<string>)
    requires Clean(todo, unreadable, broken)
    ensures Run(committed, pending, todo, unreadable, broken) == (committed + Opt(pending) + todo, false)
    decreases |todo|
  {
    if |todo| > 0 {
      assert todo[0] in todo;
      assert todo[0] !in unreadable && todo[0] !in broken;
      assert Clean(todo[1..], unreadable, broken) by {
        assert forall n :: n in todo[1..] ==> n in todo;
      }
      assert Run(committed, pending, todo, unreadable, broken)
             == Run(committed + Opt(pending), Some(todo[0]), todo[1..], unreadable, broken);
      CleanRunRecordsAll(committed + Opt(pending), Some(todo[0]), todo[1..], unreadable, broken);
      assert Opt(Some(todo[0])) == [todo[0]];
      assert committed + Opt(pending) + [todo[0]] + todo[1..] == committed + Opt(pending) + todo;
    } else {
      assert committed + Opt(pending) + todo == committed + Opt(pending);
    }
  }

  /**
   * When the file at `k` is the first to fail, the run raises and no later file is
   * recorded. A script failure keeps every earlier name. A read failure loses the last
   * one, whose INSERT was still pending.
   */
  lemma {:induction false} FailureStopsRun(committed: seq<string>, pending: Option<string>, todo: seq<string>,
                                           unreadable: set<string>, broken: set<string>, k: nat)
    requires k < |todo| && (todo[k] in unreadable || todo[k] in broken)
    requires Clean(todo[..k], unreadable, broken)
    ensures Run(committed, pending, todo, unreadable, broken).1
    ensures Run(committed, pending, todo, unreadable, broken).0
            == if todo[k] in unreadable then
                 (if k == 0 then committed else committed + Opt(pending) + todo[..k - 1])
               else committed + Opt(pending) + todo[..k]
    decreases k
  {
    if k > 0 {
      assert todo[0] == todo[..k][0] && todo[0] in todo[..k];
      assert todo[1..][..k - 1] == todo[1..k];
      assert Clean(todo[1..][..k - 1], unreadable, broken) by {
        assert forall n :: n in todo[1..k] ==> n in todo[..k];
      }
      FailureStopsRun(committed + Opt(pending), Some(todo[0]), todo[1..], unreadable, broken, k - 1);
      if k - 1 > 0 {
        assert [todo[0]] + todo[1..][..k - 2] == todo[..k - 1];
      }
      assert [todo[0]] + todo[1..][..k - 1] == todo[..k];
    }
  }

  class Migrator {
    /** The names in the `migrations` table, in insertion order. */
    var recorded: seq<string>
    /** Whether the migrations directory exists, and its listing. */
    var dirExists: bool
    var entries: seq<Entry>

    /** A missing directory lists nothing; a directory lists each name once. */
    ghost predicate Valid()
      reads this
    {
      && (!dirExists ==> entries == [])
      && (forall i, j :: 0 <= i < j < |entries| ==> entries[i].name != entries[j].name)
    }

    constructor (dirExists: bool, entries: seq<Entry>)
      requires !dirExists ==> entries == []
      requires forall i, j :: 0 <= i < j < |entries| ==> entries[i].name != entries[j].name
      ensures Valid() && recorded == [] && this.dirExists == dirExists && this.entries == entries
    {
      recorded := [];
      this.dirExists := dirExists;
      this.entries := entries;
    }

    /** The files `run_migrations` applies, in order: sorted `.sql` regular files not yet recorded. */
    function Pending(): (r: seq<string>)
      reads this
      ensures Valid() ==> Distinct(r)
    {
      var files := SortNames(SqlFiles(entries));
      SortedFilesDistinct(entries);
      ToApply(files, set n | n in recorded)
    }

    /**
     * `run_migrations`: a missing directory is created and nothing is applied; otherwise
     * the pending files are applied in order until one raises, as `Run` states.
     */
    method RunMigrations(unreadable: set<string>, broken: set<string>) returns (raised: bool)
      requires Valid()
      modifies this`recorded, this`dirExists
      ensures Valid()
      ensures !old(dirExists) ==> dirExists && !raised && recorded == old(recorded)
      ensures old(dirExists) ==> dirExists
                                 && (recorded, raised) == Run(old(recorded), None, old(Pending()), unreadable, broken)
    {
      raised := false;
      if !dirExists {
        dirExists := true;
        return;
      }
      var files := SortNames(SqlFiles(entries));
      var applied := set n | n in recorded;
      assert ToApply(files, applied) == old(Pending());
      recorded, raised := ApplyFiles(recorded, files, applied, unreadable, broken);
    }
  }

  /**
   * The loop of `run_migrations` over the sorted files, on the table `table`: each file
   * not in `applied` is run and its name inserted; the INSERT is committed by the next
   * script. A read failure rolls back the pending INSERT and a script failure keeps it,
   * and either ends the loop with an exception.
   */
  method ApplyFiles(table: seq<string>, files: seq<string>, applied: set<string>,
                    unreadable: set<string>, broken: set<string>)
    returns (recorded: seq<string>, raised: bool)
    ensures (recorded, raised) == Run(table, None, ToApply(files, applied), unreadable, broken)
  {
    // `committed` is the committed part of the table, `pending` the name whose INSERT
    // is not yet committed.
    recorded := table;
    var committed := table;
    var pending: Option<string> := None;
    var i := 0;
    assert files[0..] == files;
    while i < |files|
      invariant 0 <= i <= |files|
      invariant recorded == committed + Opt(pending)
      invariant Run(committed, pending, ToApply(files[i..], applied), unreadable, broken)
                == Run(table, None, ToApply(files, applied), unreadable, broken)
    {
      var name := files[i];
      ToApplyStep(files, i, applied);
      if name !in applied {
        RunStep(committed, pending, name, ToApply(files[i + 1..], applied), unreadable, broken);
        if name in unreadable {
          return committed, true;
        }
        committed, pending := recorded, None;
        if name in broken {
          return recorded, true;
        }
        recorded := recorded + [name];
        pending := Some(name);
      }
      i := i + 1;
    }
    assert files[i..] == [];
    raised := false;
  }

  /** The files still to apply from `i` on: `files[i]` first unless it is recorded. */
  lemma ToApplyStep(files: seq<string>, i: nat, applied: set<string>)
    requires i < |files|
    ensures ToApply(files[i..], applied)
            == if files[i] in applied then ToApply(files[i + 1..], applied)
               else [files[i]] + ToApply(files[i + 1..], applied)
  {
    assert files[i..][0] == files[i] && files[i..][1..] == files[i + 1..];
  }

  /** One step of `Run` on the file `name` followed by `rest`. */
  lemma RunStep(committed: seq<string>, pending: Option<string>, name: string, rest: seq<string>,
                unreadable: set<string>, broken: set<string>)
    ensures Run(committed, pending, [name] + rest, unreadable, broken)
            == if name in unreadable then (committed, true)
               else if name in broken then (committed + Opt(pending), true)
               else Run(committed + Opt(pending), Some(name), rest, unreadable, broken)
  {
    assert ([name] + rest)[0] == name && ([name] + rest)[1..] == rest;
  }

  /** `SqlFiles` of a listing with distinct names has distinct names. */
  lemma {:induction false} SqlFilesDistinct(entries: seq<Entry>)
    requires forall i, j :: 0 <= i < j < |entries| ==> entries[i].name != entries[j].name
    ensures Distinct(SqlFiles(entries))
    decreases |entries|
  {
    if |entries| > 0 {
      assert forall i, j :: 0 <= i < j < |entries[1..]| ==> entries[1..][i] == entries[i + 1] && entries[1..][j] == entries[j + 1];
      SqlFilesDistinct(entries[1..]);
      assert entries[0].name !in SqlFiles(entries[1..]);
    }
  }

  /** The sorted `.sql` names of a listing with distinct names are distinct. */
  lemma SortedFilesDistinct(entries: seq<Entry>)
    ensures (forall i, j :: 0 <= i < j < |entries| ==> entries[i].name != entries[j].name)
            ==> Distinct(SortNames(SqlFiles(entries)))
  {
    if forall i, j :: 0 <= i < j < |entries| ==> entries[i].name != entries[j].name {
      SqlFilesDistinct(entries);
      MultisetKeepsDistinct(SqlFiles(entries), SortNames(SqlFiles(entries)));
    }
  }

  /** A rearrangement of a sequence of distinct names has distinct names. */
  lemma MultisetKeepsDistinct(s: seq<string>, t: seq<string>)
    requires Distinct(s) && multiset(s) == multiset(t)
    ensures Distinct(t)
  {
    forall i, j | 0 <= i < j < |t| ensures t[i] != t[j] {
      if t[i] == t[j] {
        assert multiset(t)[t[i]] >= 2 by {
          assert t == t[..i] + [t[i]] + t[i + 1..j] + [t[j]] + t[j + 1..];
        }
        DistinctCountsOnce(s, t[i]);
      }
    }
  }

  /** In a sequence of distinct names each name occurs at most once. */
  lemma {:induction false} DistinctCountsOnce(s: seq<string>, x: string)
    requires Distinct(s)
    ensures multiset(s)[x] <= 1
    decreases |s|
  {
    if |s| > 0 {
      assert s == [s[0]] + s[1..];
      assert forall i, j :: 0 <= i < j < |s[1..]| ==> s[1..][i] == s[i + 1] && s[1..][j] == s[j + 1];
      DistinctCountsOnce(s[1..], x);
      assert s[0] !in s[1..];
    }
  }

  /** After a run without failures, a second run over the same directory applies nothing. */
  lemma RerunAppliesNothing(recorded: seq<string>, files: seq<string>, unreadable: set<string>, broken: set<string>)
    requires Clean(ToApply(files, set n | n in recorded), unreadable, broken)
    ensures var after := Run(recorded, None, ToApply(files, set n | n in recorded), unreadable, broken).0;
            ToApply(files, set n | n in after) == []
  {
    var todo := ToApply(files, set n | n in recorded);
    CleanRunRecordsAll(recorded, None, todo, unreadable, broken);
    assert Opt(None) == [];
    var after := recorded + todo;
    assert Run(recorded, None, todo, unreadable, broken).0 == after;
    assert forall n :: n in files ==> n in after;
  }
}
