/**
 * The seed data of `core/services/data_setup_service.py`: six item templates and six
 * sects, each created only when no row with its name exists yet.
 */
module DataSetup {
  import opened Wrappers
  import opened Models
  import ItemRepo
  import SectRepo

  /** The six seed items; `effect_value` is written in hundredths. */
  const InitialItems: seq<Item> := [
    Item(0, "筑基丹", "丹药", Some("用于突破炼气期瓶颈的丹药"), 3, Some("突破炼气期瓶颈"), Some("突破"), Some(100), Some("炼气大圆满"), None),
    Item(0, "清灵丹", "丹药", Some("清除丹毒的丹药"), 2, Some("清除丹毒"), Some("清理"), Some(100), None, None),
    Item(0, "聚气丹", "丹药", Some("增加修为获取的丹药"), 2, Some("增加修为获取"), Some("增益"), Some(50), None, None),
    Item(0, "灵眼之液", "材料", Some("蕴含天地造化之力的灵液"), 5, Some("逆天改命或催熟灵物"), Some("特殊"), Some(100), None, None),
    Item(0, "养魂木", "材料", Some("用于养魂的珍贵材料"), 4, Some("用于突破或炼制高级丹药"), Some("材料"), Some(100), None, None),
    Item(0, "青竹蜂云剑", "法宝", Some("合欢宗至宝，搭配青元剑诀威力无穷"), 5, Some("大幅提升斗法威力"), Some("战斗"), Some(200), None, None)
  ]

  /** A seed sect: no founder, one member, no contribution, active. */
  function SeedSect(name: string, description: string): Sect {
    Sect(0, name, Some(description), None, None, 1, 0, true)
  }

  /** The six seed sects. */
  const InitialSects: seq<Sect> := [
    SeedSect("黄枫谷", "炼丹师的摇篮，拥有药园加持和低调修行两大天赋"),
    SeedSect("太一门", "天机推演者，弟子可修炼独有的神识属性"),
    SeedSect("合欢宗", "速成者的捷径，弟子可发起闭关双修"),
    SeedSect("星宫", "统治者的权柄，弟子每日可领灵石俸禄"),
    SeedSect("万灵宗", "御兽者的天堂，弟子入门即送初始灵兽"),
    SeedSect("黑煞教", "魔道枭雄的巢穴，弟子拥有独特的夺舍神通")
  ]

  /** Some item row carries `name`. */
  predicate HasItemNamed(rows: seq<ItemRepo.ItemRow>, name: string) {
    !ItemRepo.NameFree(rows, name)
  }

  /** Some sect row carries `name`. */
  predicate HasSectNamed(rows: seq<SectRepo.SectRow>, name: string) {
    !SectRepo.NameFree(rows, name)
  }

  /**
   * The item table after the seed loop over `seeds`, the next row taking id `nextId`:
   * each seed whose name is missing is appended, in order.
   */
  function SeedItems(rows: seq<ItemRepo.ItemRow>, seeds: seq<Item>, nextId: int, now: int): seq<ItemRepo.ItemRow>
    decreases |seeds|
  {
    if |seeds| == 0 then rows
    else if ItemRepo.NameFree(rows, seeds[0].name) then
      SeedItems(rows + [ItemRepo.Inserted(seeds[0], nextId, now)], seeds[1..], nextId + 1, now)
    else SeedItems(rows, seeds[1..], nextId, now)
  }

  /** The sect table after the seed loop over `seeds`, in the same way. */
  function SeedSects(rows: seq<SectRepo.SectRow>, seeds: seq<Sect>, nextId: int, now: int): seq<SectRepo.SectRow>
    decreases |seeds|
  {
    if |seeds| == 0 then rows
    else if SectRepo.NameFree(rows, seeds[0].name) then
      SeedSects(rows + [SectRepo.Inserted(seeds[0], nextId, now)], seeds[1..], nextId + 1, now)
    else SeedSects(rows, seeds[1..], nextId, now)
  }

  /** Seeding only appends: every row present before is kept, unchanged, in its place. */
  lemma {:induction false} SeedItemsKeepsRows(rows: seq<ItemRepo.ItemRow>, seeds: seq<Item>, nextId: int, now: int)
    ensures rows <= SeedItems(rows, seeds, nextId, now)
    decreases |seeds|
  {
    if |seeds| > 0 {
      if ItemRepo.NameFree(rows, seeds[0].name) {
        SeedItemsKeepsRows(rows + [ItemRepo.Inserted(seeds[0], nextId, now)], seeds[1..], nextId + 1, now);
      } else {
        SeedItemsKeepsRows(rows, seeds[1..], nextId, now);
      }
    }
  }

  /** After seeding, every seed's name is in the table. */
  lemma {:induction false} SeedItemsCoversSeeds(rows: seq<ItemRepo.ItemRow>, seeds: seq<Item>, nextId: int, now: int)
    ensures forall k :: 0 <= k < |seeds| ==> HasItemNamed(SeedItems(rows, seeds, nextId, now), seeds[k].name)
    decreases |seeds|
  {
    if |seeds| > 0 {
      var next := if ItemRepo.NameFree(rows, seeds[0].name) then rows + [ItemRepo.Inserted(seeds[0], nextId, now)] else rows;
      var nextId' := if ItemRepo.NameFree(rows, seeds[0].name) then nextId + 1 else nextId;
      assert HasItemNamed(next, seeds[0].name) by {
        if ItemRepo.NameFree(rows, seeds[0].name) {
          assert next[|rows|].name == seeds[0].name;
        }
      }
      SeedItemsCoversSeeds(next, seeds[1..], nextId', now);
      SeedItemsKeepsRows(next, seeds[1..], nextId', now);
      var result := SeedItems(rows, seeds, nextId, now);
      assert result == SeedItems(next, seeds[1..], nextId', now);
      forall k | 0 <= k < |seeds|
        ensures HasItemNamed(result, seeds[k].name)
      {
        if k == 0 {
          var j :| 0 <= j < |next| && next[j].name == seeds[0].name;
          assert result[j] == next[j];
        } else {
          assert seeds[k] == seeds[1..][k - 1];
        }
      }
    }
  }

  /** With every seed's name already present, seeding changes nothing. */
  lemma {:induction false} SeedItemsIdle(rows: seq<ItemRepo.ItemRow>, seeds: seq<Item>, nextId: int, now: int)
    requires forall k :: 0 <= k < |seeds| ==> HasItemNamed(rows, seeds[k].name)
    ensures SeedItems(rows, seeds, nextId, now) == rows
    decreases |seeds|
  {
    if |seeds| > 0 {
      assert HasItemNamed(rows, seeds[0].name);
      assert forall k :: 0 <= k < |seeds[1..]| ==> seeds[1..][k] == seeds[k + 1];
      SeedItemsIdle(rows, seeds[1..], nextId, now);
    }
  }

  /** Seeding items twice is seeding them once. */
  lemma SeedItemsIdempotent(rows: seq<ItemRepo.ItemRow>, seeds: seq<Item>, nextId: int, nextId': int, now: int, later: int)
    ensures SeedItems(SeedItems(rows, seeds, nextId, now), seeds, nextId', later) == SeedItems(rows, seeds, nextId, now)
  {
    SeedItemsCoversSeeds(rows, seeds, nextId, now);
    SeedItemsIdle(SeedItems(rows, seeds, nextId, now), seeds, nextId', later);
  }

  /** Seeding only appends: every sect row present before is kept, unchanged, in its place. */
  lemma {:induction false} SeedSectsKeepsRows(rows: seq<SectRepo.SectRow>, seeds: seq<Sect>, nextId: int, now: int)
    ensures rows <= SeedSects(rows, seeds, nextId, now)
    decreases |seeds|
  {
    if |seeds| > 0 {
      if SectRepo.NameFree(rows, seeds[0].name) {
        SeedSectsKeepsRows(rows + [SectRepo.Inserted(seeds[0], nextId, now)], seeds[1..], nextId + 1, now);
      } else {
        SeedSectsKeepsRows(rows, seeds[1..], nextId, now);
      }
    }
  }

  /** After seeding, every seed sect's name is in the table. */
  lemma {:induction false} SeedSectsCoversSeeds(rows: seq<SectRepo.SectRow>, seeds: seq<Sect>, nextId: int, now: int)
    ensures forall k :: 0 <= k < |seeds| ==> HasSectNamed(SeedSects(rows, seeds, nextId, now), seeds[k].name)
    decreases |seeds|
  {
    if |seeds| > 0 {
      var next := if SectRepo.NameFree(rows, seeds[0].name) then rows + [SectRepo.Inserted(seeds[0], nextId, now)] else rows;
      var nextId' := if SectRepo.NameFree(rows, seeds[0].name) then nextId + 1 else nextId;
      assert HasSectNamed(next, seeds[0].name) by {
        if SectRepo.NameFree(rows, seeds[0].name) {
          assert next[|rows|].name == seeds[0].name;
        }
      }
      SeedSectsCoversSeeds(next, seeds[1..], nextId', now);
      SeedSectsKeepsRows(next, seeds[1..], nextId', now);
      var result := SeedSects(rows, seeds, nextId, now);
      assert result == SeedSects(next, seeds[1..], nextId', now);
      forall k | 0 <= k < |seeds|
        ensures HasSectNamed(result, seeds[k].name)
      {
        if k == 0 {
          var j :| 0 <= j < |next| && next[j].name == seeds[0].name;
          assert result[j] == next[j];
        } else {
          assert seeds[k] == seeds[1..][k - 1];
        }
      }
    }
  }

  /** With every seed sect's name already present, seeding changes nothing. */
  lemma {:induction false} SeedSectsIdle(rows: seq<SectRepo.SectRow>, seeds: seq<Sect>, nextId: int, now: int)
    requires forall k :: 0 <= k < |seeds| ==> HasSectNamed(rows, seeds[k].name)
    ensures SeedSects(rows, seeds, nextId, now) == rows
    decreases |seeds|
  {
    if |seeds| > 0 {
      assert HasSectNamed(rows, seeds[0].name);
      assert forall k :: 0 <= k < |seeds[1..]| ==> seeds[1..][k] == seeds[k + 1];
      SeedSectsIdle(rows, seeds[1..], nextId, now);
    }
  }

  /** Seeding sects twice is seeding them once. */
  lemma SeedSectsIdempotent(rows: seq<SectRepo.SectRow>, seeds: seq<Sect>, nextId: int, nextId': int, now: int, later: int)
    ensures SeedSects(SeedSects(rows, seeds, nextId, now), seeds, nextId', later) == SeedSects(rows, seeds, nextId, now)
  {
    SeedSectsCoversSeeds(rows, seeds, nextId, now);
    SeedSectsIdle(SeedSects(rows, seeds, nextId, now), seeds, nextId', later);
  }

  class DataSetupService {
    const items: ItemRepo.ItemRepository
    const sects: SectRepo.SectRepository

    constructor (items: ItemRepo.ItemRepository, sects: SectRepo.SectRepository)
      ensures this.items == items && this.sects == sects
    {
      this.items := items;
      this.sects := sects;
    }

    /** The loop of `_create_initial_items` over `seeds`: a seed is created when `get_by_name` finds none. */
    method CreateMissingItems(seeds: seq<Item>, now: int)
      requires items.Valid()
      modifies items
      ensures items.Valid()
      ensures items.rows == SeedItems(old(items.rows), seeds, old(items.nextId), now)
    {
      var i := 0;
      while i < |seeds|
        invariant 0 <= i <= |seeds|
        invariant items.Valid()
        invariant SeedItems(items.rows, seeds[i..], items.nextId, now) == SeedItems(old(items.rows), seeds, old(items.nextId), now)
      {
        var item := seeds[i];
        assert seeds[i..][0] == item && seeds[i..][1..] == seeds[i + 1..];
        ghost var before, beforeId := items.rows, items.nextId;
        var existing := items.GetByName(item.name);
        if existing.None? {
          var _ := items.CreateItem(item, now);
        }
        assert SeedItems(before, seeds[i..], beforeId, now) == SeedItems(items.rows, seeds[i + 1..], items.nextId, now);
        i := i + 1;
      }
    }

    /** The loop of `_create_initial_sects` over `seeds`: a seed is created when `get_by_name` finds none. */
    method CreateMissingSects(seeds: seq<Sect>, now: int)
      requires sects.Valid()
      modifies sects`sects, sects`nextSectId
      ensures sects.Valid()
      ensures sects.sects == SeedSects(old(sects.sects), seeds, old(sects.nextSectId), now)
    {
      var i := 0;
      while i < |seeds|
        invariant 0 <= i <= |seeds|
        invariant sects.Valid()
        invariant SeedSects(sects.sects, seeds[i..], sects.nextSectId, now)
                  == SeedSects(old(sects.sects), seeds, old(sects.nextSectId), now)
      {
        var sect := seeds[i];
        assert seeds[i..][0] == sect && seeds[i..][1..] == seeds[i + 1..];
        ghost var before, beforeId := sects.sects, sects.nextSectId;
        var existing := sects.GetByName(sect.name);
        if existing.None? {
          var _ := sects.CreateSect(sect, now);
        }
        assert SeedSects(before, seeds[i..], beforeId, now) == SeedSects(sects.sects, seeds[i + 1..], sects.nextSectId, now);
        i := i + 1;
      }
    }

    /**
     * `setup_initial_data`: the items, then the sects. Existing rows are kept as they
     * are, and a second run changes neither table.
     */
    method SetupInitialData(now: int)
      requires items.Valid() && sects.Valid()
      modifies items, sects`sects, sects`nextSectId
      ensures items.Valid() && sects.Valid()
      ensures items.rows == SeedItems(old(items.rows), InitialItems, old(items.nextId), now)
      ensures sects.sects == SeedSects(old(sects.sects), InitialSects, old(sects.nextSectId), now)
      ensures old(items.rows) <= items.rows && old(sects.sects) <= sects.sects
      ensures forall k :: 0 <= k < |InitialItems| ==> HasItemNamed(items.rows, InitialItems[k].name)
      ensures forall k :: 0 <= k < |InitialSects| ==> HasSectNamed(sects.sects, InitialSects[k].name)
    {
      CreateMissingItems(InitialItems, now);
      CreateMissingSects(InitialSects, now);
      SeedItemsKeepsRows(old(items.rows), InitialItems, old(items.nextId), now);
      SeedSectsKeepsRows(old(sects.sects), InitialSects, old(sects.nextSectId), now);
      SeedItemsCoversSeeds(old(items.rows), InitialItems, old(items.nextId), now);
      SeedSectsCoversSeeds(old(sects.sects), InitialSects, old(sects.nextSectId), now);
    }
  }
}
