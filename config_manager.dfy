/**
 * The game-data indexes of `config_manager.py`. The JSON files arrive as values: a JSON
 * object with its keys in file order, an entry's fields as a map. The name indexes are
 * built in file order, so when two entries share a name the later one wins.
 */
module ConfigManager {
  import opened Wrappers

  /** A JSON field value, as far as the game looks at it: a string, a whole number, a list, or anything else. */
  datatype Value = Str(s: string) | Num(n: int) | List(items: seq<Value>) | Other

  /** One JSON object's fields. */
  type Info = map<string, Value>

  /** The string under `key`, when the entry has one. */
  function NameOf(info: Info, key: string): Option<string> {
    if key in info && info[key].Str? then Some(info[key].s) else None
  }

  /** `{"index": i, **info}`: the entry's own fields win, an `index` field included. */
  function LevelRecord(index: int, info: Info): (r: Info)
    ensures forall k :: k in r <==> k == "index" || k in info
    ensures forall k :: k in info ==> r[k] == info[k]
    ensures "index" !in info ==> r["index"] == Num(index)
  {
    map["index" := Num(index)] + info
  }

  /**
   * A dictionary filled in order from `(key, value)` pairs, a pair without a key being
   * skipped: the last value stored under a key is the one that stays.
   */
  function LastWins<V>(es: seq<(Option<string>, V)>): map<string, V>
    decreases |es|
  {
    if |es| == 0 then map[]
    else
      var m := LastWins(es[..|es| - 1]);
      var e := es[|es| - 1];
      if e.0.Some? then m[e.0.value := e.1] else m
  }

  /** A key is present iff some pair bears it, and then it holds the value of the last such pair. */
  lemma {:induction false} LastWinsSpec<V>(es: seq<(Option<string>, V)>, n: string)
    ensures n in LastWins(es) <==> exists i :: 0 <= i < |es| && es[i].0 == Some(n)
    ensures n in LastWins(es) ==>
              exists i :: 0 <= i < |es| && es[i].0 == Some(n) && LastWins(es)[n] == es[i].1
                          && forall j :: i < j < |es| ==> es[j].0 != Some(n)
    decreases |es|
  {
    if |es| > 0 {
      var last := |es| - 1;
      var front := es[..last];
      LastWinsSpec(front, n);
      assert forall i :: 0 <= i < last ==> front[i] == es[i];
      if es[last].0 == Some(n) {
        assert LastWins(es)[n] == es[last].1;
      } else if n in LastWins(front) {
        var i :| 0 <= i < last && front[i].0 == Some(n) && LastWins(front)[n] == front[i].1
                 && forall j :: i < j < last ==> front[j].0 != Some(n);
        assert LastWins(es)[n] == es[i].1;
      }
    }
  }

  /** Filling one more pair in is one more dictionary assignment. */
  lemma LastWinsSnoc<V>(es: seq<(Option<string>, V)>, k: nat)
    requires k < |es|
    ensures LastWins(es[..k + 1]) == if es[k].0.Some? then LastWins(es[..k])[es[k].0.value := es[k].1] else LastWins(es[..k])
  {
    assert es[..k + 1][..k] == es[..k];
  }

  /** The pairs `level_map` is built from: each entry's level name and its record. */
  function LevelEntries(levels: seq<Info>): seq<(Option<string>, Info)> {
    seq(|levels|, i requires 0 <= i < |levels| => (NameOf(levels[i], "level_name"), LevelRecord(i, levels[i])))
  }

  /** `level_map` */
  function LevelMap(levels: seq<Info>): map<string, Info> {
    LastWins(LevelEntries(levels))
  }

  /**
   * `level_map` holds exactly the level names, each with the record of the last entry
   * bearing it, whose index counts every entry of the list, those without a name included.
   */
  lemma LevelMapIndexes(levels: seq<Info>, n: string)
    ensures n in LevelMap(levels) <==> exists i :: 0 <= i < |levels| && NameOf(levels[i], "level_name") == Some(n)
    ensures n in LevelMap(levels) ==>
              exists i :: 0 <= i < |levels| && NameOf(levels[i], "level_name") == Some(n)
                          && LevelMap(levels)[n] == LevelRecord(i, levels[i])
                          && forall j :: i < j < |levels| ==> NameOf(levels[j], "level_name") != Some(n)
  {
    var es := LevelEntries(levels);
    LastWinsSpec(es, n);
    assert forall i :: 0 <= i < |levels| ==> es[i] == (NameOf(levels[i], "level_name"), LevelRecord(i, levels[i]));
  }

  /** `{map_name: map_name for map_name in maps.keys()}` */
  function MapIndex(maps: map<string, Info>): (r: map<string, string>)
    ensures forall n :: n in r <==> n in maps
    ensures forall n :: n in r ==> r[n] == n
  {
    map n | n in maps :: n
  }

  /** An entry of `items.json`, and whether `Item(id=item_id, **info)` accepts its fields. */
  datatype RawItem = RawItem(id: string, info: Info, constructs: bool)

  /** `Item(id=item_id, **info)`: the item an entry constructs. */
  datatype ConfigItem = ConfigItem(id: string, info: Info)

  /** The assignments of `item_data` the loop makes: one per entry that constructs. */
  function ItemEntries(raw: seq<RawItem>): seq<(Option<string>, ConfigItem)> {
    seq(|raw|, i requires 0 <= i < |raw| =>
      (if raw[i].constructs then Some(raw[i].id) else None, ConfigItem(raw[i].id, raw[i].info)))
  }

  /** The assignments of `item_name_to_id` the loop makes: one per named entry that constructs. */
  function ItemNameEntries(raw: seq<RawItem>): seq<(Option<string>, string)> {
    seq(|raw|, i requires 0 <= i < |raw| =>
      (if raw[i].constructs then NameOf(raw[i].info, "name") else None, raw[i].id))
  }

  /** `item_data` */
  function ItemData(raw: seq<RawItem>): map<string, ConfigItem> {
    LastWins(ItemEntries(raw))
  }

  /** `item_name_to_id` */
  function ItemNames(raw: seq<RawItem>): map<string, string> {
    LastWins(ItemNameEntries(raw))
  }

  /** `item_data` holds exactly the ids of entries that construct, each with the last such entry's item. */
  lemma ItemDataIndexes(raw: seq<RawItem>, id: string)
    ensures id in ItemData(raw) <==> exists i :: 0 <= i < |raw| && raw[i].constructs && raw[i].id == id
    ensures id in ItemData(raw) ==>
              exists i :: 0 <= i < |raw| && raw[i].constructs && raw[i].id == id
                          && ItemData(raw)[id] == ConfigItem(id, raw[i].info)
                          && forall j :: i < j < |raw| ==> !(raw[j].constructs && raw[j].id == id)
  {
    var es := ItemEntries(raw);
    LastWinsSpec(es, id);
    assert forall i :: 0 <= i < |raw| ==>
             es[i] == (if raw[i].constructs then Some(raw[i].id) else None, ConfigItem(raw[i].id, raw[i].info));
  }

  /**
   * `item_name_to_id` holds exactly the names of entries that construct, each with the id
   * of the last such entry bearing the name; an entry that fails to construct leaves no name.
   */
  lemma ItemNamesIndexes(raw: seq<RawItem>, n: string)
    ensures n in ItemNames(raw) <==>
              exists i :: 0 <= i < |raw| && raw[i].constructs && NameOf(raw[i].info, "name") == Some(n)
    ensures n in ItemNames(raw) ==>
              exists i :: 0 <= i < |raw| && raw[i].constructs && NameOf(raw[i].info, "name") == Some(n)
                          && ItemNames(raw)[n] == raw[i].id
                          && forall j :: i < j < |raw| ==> !(raw[j].constructs && NameOf(raw[j].info, "name") == Some(n))
  {
    var es := ItemNameEntries(raw);
    LastWinsSpec(es, n);
    assert forall i :: 0 <= i < |raw| ==>
             es[i] == (if raw[i].constructs then NameOf(raw[i].info, "name") else None, raw[i].id);
  }

  /** The pairs of a JSON object read as a dictionary. */
  function KeyEntries(entries: seq<(string, Info)>): seq<(Option<string>, Info)> {
    seq(|entries|, i requires 0 <= i < |entries| => (Some(entries[i].0), entries[i].1))
  }

  /** A JSON object as a dictionary. */
  function ToMap(entries: seq<(string, Info)>): map<string, Info> {
    LastWins(KeyEntries(entries))
  }

  /** The pairs of `{info["name"]: id for id, info in data.items() if "name" in info}`. */
  function NameEntries(entries: seq<(string, Info)>): seq<(Option<string>, string)> {
    seq(|entries|, i requires 0 <= i < |entries| => (NameOf(entries[i].1, "name"), entries[i].0))
  }

  /** `realm_name_to_id` and `boss_name_to_id` */
  function NameIndex(entries: seq<(string, Info)>): map<string, string> {
    LastWins(NameEntries(entries))
  }

  /** The ids of a JSON object are distinct, as a dictionary's keys are. */
  predicate DistinctIds(entries: seq<(string, Info)>) {
    forall i, j :: 0 <= i < j < |entries| ==> entries[i].0 != entries[j].0
  }

  /** Item ids are distinct. */
  predicate DistinctItemIds(raw: seq<RawItem>) {
    forall i, j :: 0 <= i < j < |raw| ==> raw[i].id != raw[j].id
  }

  /**
   * A name index holds exactly the names of the entries, each with the id of the last
   * entry bearing it; with distinct ids that id leads to the entry, which bears the name.
   */
  lemma NameIndexFindsEntry(entries: seq<(string, Info)>, n: string)
    requires DistinctIds(entries)
    ensures n in NameIndex(entries) <==> exists i :: 0 <= i < |entries| && NameOf(entries[i].1, "name") == Some(n)
    ensures n in NameIndex(entries) ==>
              && NameIndex(entries)[n] in ToMap(entries)
              && NameOf(ToMap(entries)[NameIndex(entries)[n]], "name") == Some(n)
              && forall j :: 0 <= j < |entries| && NameOf(entries[j].1, "name") == Some(n) ==>
                   exists i :: j <= i < |entries| && NameIndex(entries)[n] == entries[i].0
  {
    var es := NameEntries(entries);
    LastWinsSpec(es, n);
    assert forall i :: 0 <= i < |entries| ==> es[i] == (NameOf(entries[i].1, "name"), entries[i].0);
    if n in NameIndex(entries) {
      var i :| 0 <= i < |entries| && es[i].0 == Some(n) && NameIndex(entries)[n] == es[i].1
               && forall j :: i < j < |entries| ==> es[j].0 != Some(n);
      var ks := KeyEntries(entries);
      var id := entries[i].0;
      LastWinsSpec(ks, id);
      assert ks[i].0 == Some(id);
      var k :| 0 <= k < |ks| && ks[k].0 == Some(id) && ToMap(entries)[id] == ks[k].1;
      assert entries[k].0 == id;
      assert k == i;
    }
  }

  /** With distinct ids, every name of `item_name_to_id` leads to a loaded item bearing that name. */
  lemma ItemNamesFindItem(raw: seq<RawItem>, n: string)
    requires DistinctItemIds(raw) && n in ItemNames(raw)
    ensures ItemNames(raw)[n] in ItemData(raw)
    ensures ItemData(raw)[ItemNames(raw)[n]].id == ItemNames(raw)[n]
    ensures NameOf(ItemData(raw)[ItemNames(raw)[n]].info, "name") == Some(n)
  {
    ItemNamesIndexes(raw, n);
    var i :| 0 <= i < |raw| && raw[i].constructs && NameOf(raw[i].info, "name") == Some(n) && ItemNames(raw)[n] == raw[i].id;
    var id := raw[i].id;
    ItemDataIndexes(raw, id);
    var k :| 0 <= k < |raw| && raw[k].constructs && raw[k].id == id && ItemData(raw)[id] == ConfigItem(id, raw[k].info);
    assert k == i;
  }

  /** The `for item_id, info in raw_item_data.items()` loop of `_load_all`. */
  method LoadItems(rawItems: seq<RawItem>) returns (data: map<string, ConfigItem>, names: map<string, string>)
    ensures data == ItemData(rawItems) && names == ItemNames(rawItems)
  {
    data, names := map[], map[];
    ghost var es, ns := ItemEntries(rawItems), ItemNameEntries(rawItems);
    for k := 0 to |rawItems|
      invariant data == LastWins(es[..k]) && names == LastWins(ns[..k])
    {
      LastWinsSnoc(es, k);
      LastWinsSnoc(ns, k);
      var entry := rawItems[k];
      assert es[k] == (if entry.constructs then Some(entry.id) else None, ConfigItem(entry.id, entry.info));
      assert ns[k] == (if entry.constructs then NameOf(entry.info, "name") else None, entry.id);
      if entry.constructs {
        data := data[entry.id := ConfigItem(entry.id, entry.info)];
        var name := NameOf(entry.info, "name");
        if name.Some? {
          names := names[name.value := entry.id];
        }
      }
    }
    assert es[..|rawItems|] == es && ns[..|rawItems|] == ns;
  }

  class ConfigManager {
    var levelMap: map<string, Info>
    var itemData: map<string, ConfigItem>
    var itemNameToId: map<string, string>
    var realmData: map<string, Info>
    var realmNameToId: map<string, string>
    var bossData: map<string, Info>
    var bossNameToId: map<string, string>
    /** The `地图` section of `world_map.json`, when it has one. */
    var worldMap: Option<map<string, Info>>
    var worldMapNameToId: map<string, string>
    /** The `资源点` section of `resources.json`, when it has one: map name to resource name to resource. */
    var resources: Option<map<string, map<string, Info>>>

    /** Each name index leads into its table. */
    ghost predicate Valid()
      reads this
    {
      && (forall n :: n in realmNameToId ==> realmNameToId[n] in realmData)
      && (forall n :: n in bossNameToId ==> bossNameToId[n] in bossData)
    }

    /** `__init__`: empty tables, then `_load_all` over the loaded files. */
    constructor (levels: seq<Info>, rawItems: seq<RawItem>, realms: seq<(string, Info)>, bosses: seq<(string, Info)>,
                 worldMapSection: Option<map<string, Info>>, resourcesSection: Option<map<string, map<string, Info>>>)
      ensures Valid()
      ensures levelMap == LevelMap(levels) && itemData == ItemData(rawItems) && itemNameToId == ItemNames(rawItems)
      ensures realmData == ToMap(realms) && realmNameToId == NameIndex(realms)
      ensures bossData == ToMap(bosses) && bossNameToId == NameIndex(bosses)
      ensures worldMap == worldMapSection && resources == resourcesSection
      ensures worldMapNameToId == if worldMapSection.Some? then MapIndex(worldMapSection.value) else map[]
    {
      levelMap, itemData, itemNameToId := map[], map[], map[];
      realmData, realmNameToId, bossData, bossNameToId := map[], map[], map[], map[];
      worldMap, worldMapNameToId, resources := None, map[], None;
      new;
      LoadAll(levels, rawItems, realms, bosses, worldMapSection, resourcesSection);
    }

    /**
     * `_load_all`: builds every index. The item loop skips an entry whose construction
     * fails. The map index is rebuilt only when the file has a `地图` section.
     */
    method LoadAll(levels: seq<Info>, rawItems: seq<RawItem>, realms: seq<(string, Info)>, bosses: seq<(string, Info)>,
                   worldMapSection: Option<map<string, Info>>, resourcesSection: Option<map<string, map<string, Info>>>)
      modifies this`levelMap, this`itemData, this`itemNameToId, this`realmData, this`realmNameToId, this`bossData,
               this`bossNameToId, this`worldMap, this`worldMapNameToId, this`resources
      ensures Valid()
      ensures levelMap == LevelMap(levels) && itemData == ItemData(rawItems) && itemNameToId == ItemNames(rawItems)
      ensures realmData == ToMap(realms) && realmNameToId == NameIndex(realms)
      ensures bossData == ToMap(bosses) && bossNameToId == NameIndex(bosses)
      ensures worldMap == worldMapSection && resources == resourcesSection
      ensures worldMapNameToId == if worldMapSection.Some? then MapIndex(worldMapSection.value)
                                  else old(worldMapNameToId)
    {
      levelMap := LevelMap(levels);
      itemData, itemNameToId := LoadItems(rawItems);
      LoadNameIndexes(realms, bosses);
      LoadWorld(worldMapSection, resourcesSection);
    }

    /** The realm and boss tables and their name indexes. */
    method LoadNameIndexes(realms: seq<(string, Info)>, bosses: seq<(string, Info)>)
      modifies this`realmData, this`realmNameToId, this`bossData, this`bossNameToId
      ensures Valid()
      ensures realmData == ToMap(realms) && realmNameToId == NameIndex(realms)
      ensures bossData == ToMap(bosses) && bossNameToId == NameIndex(bosses)
    {
      IndexedIdsStored(realms);
      IndexedIdsStored(bosses);
      realmData, realmNameToId, bossData, bossNameToId := ToMap(realms), NameIndex(realms), ToMap(bosses), NameIndex(bosses);
    }

    /** The world map and resources; the map index is rebuilt only when there is a `地图` section. */
    method LoadWorld(worldMapSection: Option<map<string, Info>>, resourcesSection: Option<map<string, map<string, Info>>>)
      modifies this`worldMap, this`worldMapNameToId, this`resources
      ensures worldMap == worldMapSection && resources == resourcesSection
      ensures worldMapNameToId == if worldMapSection.Some? then MapIndex(worldMapSection.value) else old(worldMapNameToId)
    {
      worldMap, resources := worldMapSection, resourcesSection;
      if worldMapSection.Some? {
        worldMapNameToId := MapIndex(worldMapSection.value);
      }
    }

    /** `get_item_by_name`: the id and item a name indexes, when the id is non-empty and loaded. */
    function GetItemByName(name: string): (r: Option<(string, ConfigItem)>)
      reads this
      ensures name !in itemNameToId ==> r.None?
      ensures r.Some? <==> name in itemNameToId && itemNameToId[name] != "" && itemNameToId[name] in itemData
      ensures r.Some? ==> r.value.0 == itemNameToId[name] && r.value.1 == itemData[r.value.0]
    {
      if name in itemNameToId && itemNameToId[name] != "" && itemNameToId[name] in itemData then
        Some((itemNameToId[name], itemData[itemNameToId[name]]))
      else None
    }

    /** `get_realm_by_name`: the id and realm a name indexes, when the id is non-empty. */
    function GetRealmByName(name: string): (r: Option<(string, Info)>)
      requires Valid()
      reads this
      ensures r.Some? <==> name in realmNameToId && realmNameToId[name] != ""
      ensures r.Some? ==> r.value.0 == realmNameToId[name] && r.value.0 in realmData && r.value.1 == realmData[r.value.0]
    {
      if name in realmNameToId && realmNameToId[name] != "" then
        Some((realmNameToId[name], realmData[realmNameToId[name]]))
      else None
    }

    /** `get_boss_by_name`: the id and boss a name indexes, when the id is non-empty. */
    function GetBossByName(name: string): (r: Option<(string, Info)>)
      requires Valid()
      reads this
      ensures r.Some? <==> name in bossNameToId && bossNameToId[name] != ""
      ensures r.Some? ==> r.value.0 == bossNameToId[name] && r.value.0 in bossData && r.value.1 == bossData[r.value.0]
    {
      if name in bossNameToId && bossNameToId[name] != "" then
        Some((bossNameToId[name], bossData[bossNameToId[name]]))
      else None
    }

    /** `get_map_by_name`: a map of the `地图` section that the map index names. */
    function GetMapByName(name: string): (r: Option<(string, Info)>)
      reads this
      ensures r.Some? <==> name in worldMapNameToId && worldMapNameToId[name] != "" && worldMap.Some?
                           && worldMapNameToId[name] in worldMap.value
      ensures r.Some? ==> r.value.0 == worldMapNameToId[name] && r.value.1 == worldMap.value[r.value.0]
    {
      if name in worldMapNameToId && worldMapNameToId[name] != "" && worldMap.Some? && worldMapNameToId[name] in worldMap.value then
        Some((worldMapNameToId[name], worldMap.value[worldMapNameToId[name]]))
      else None
    }

    /** `get_resources_by_map`: the resources listed for a map. */
    function GetResourcesByMap(mapName: string): (r: Option<map<string, Info>>)
      reads this
      ensures r.Some? <==> resources.Some? && mapName in resources.value
      ensures r.Some? ==> r.value == resources.value[mapName]
    {
      if resources.Some? && mapName in resources.value then Some(resources.value[mapName]) else None
    }

    /** `get_resource_by_name`: a resource of a map, `None` when the map or the resource is absent. */
    function GetResourceByName(mapName: string, resourceName: string): (r: Option<Info>)
      reads this
      ensures r.Some? <==> resources.Some? && mapName in resources.value && resourceName in resources.value[mapName]
      ensures r.Some? ==> r.value == resources.value[mapName][resourceName]
    {
      var rs := GetResourcesByMap(mapName);
      if rs.Some? && |rs.value| > 0 && resourceName in rs.value then Some(rs.value[resourceName]) else None
    }
  }

  /** Every id a name index gives is a key of the object. */
  lemma IndexedIdStored(entries: seq<(string, Info)>, n: string)
    requires n in NameIndex(entries)
    ensures NameIndex(entries)[n] in ToMap(entries)
  {
    var es := NameEntries(entries);
    LastWinsSpec(es, n);
    var i :| 0 <= i < |es| && es[i].0 == Some(n) && NameIndex(entries)[n] == es[i].1;
    LastWinsSpec(KeyEntries(entries), entries[i].0);
    assert KeyEntries(entries)[i].0 == Some(entries[i].0);
  }

  /** Every id of a name index is a key of the object. */
  lemma IndexedIdsStored(entries: seq<(string, Info)>)
    ensures forall n :: n in NameIndex(entries) ==> NameIndex(entries)[n] in ToMap(entries)
  {
    forall n | n in NameIndex(entries) ensures NameIndex(entries)[n] in ToMap(entries) {
      IndexedIdStored(entries, n);
    }
  }

  /** Once a `地图` section is loaded, a map is found exactly by its own non-empty name. */
  lemma MapLookupAfterLoad(c: ConfigManager, name: string)
    requires c.worldMap.Some? && c.worldMapNameToId == MapIndex(c.worldMap.value)
    ensures c.GetMapByName(name) == if name != "" && name in c.worldMap.value then Some((name, c.worldMap.value[name])) else None
  {
  }
}
