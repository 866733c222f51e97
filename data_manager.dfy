/**
 * The player ledger of `data/data_manager.py`: the asynchronous SQLite store of players,
 * inventory, world bosses, map resource points, the resource-collection queue and the
 * character-creation tables. Each `BEGIN ... commit/rollback` block is one method whose
 * effects happen completely or not at all; `fault` stands for a store error raised inside
 * the block, which the source answers with a rollback.
 */
module DataManager {
  import opened Wrappers
  import opened Ordering

  /** The columns of a `players` row that the ledger reads or writes. */
  datatype Player = Player(
    userId: string,
    gold: int,
    experience: int,
    hp: int,
    maxHp: int,
    levelIndex: int,
    currentMap: string,
    avatar: Option<string>,
    sectId: Option<int>,
    sectName: Option<string>)

  /** The reward bundle an item grants when used. */
  datatype PlayerEffect = PlayerEffect(experience: int, gold: int, hp: int)

  datatype ActiveBoss = ActiveBoss(bossId: string, currentHp: int, maxHp: int, spawnedAt: int, levelIndex: int)

  /** A `world_boss_participants` row, keyed by `(boss_id, user_id)`. */
  datatype DamageRow = DamageRow(userName: string, totalDamage: int)

  /** One entry of `get_boss_participants`' result. */
  datatype Participant = Participant(userId: string, userName: string, totalDamage: int)

  /** A `map_resources` row, keyed by `(map_name, resource_name)`. */
  datatype ResourceState = ResourceState(currentQuantity: int, lastRefreshTime: int)

  datatype CollectionTask = CollectionTask(
    id: int,
    userId: string,
    mapName: string,
    resourceName: string,
    startTime: int,
    completionTime: int,
    quantity: int,
    sessionId: Option<string>,
    collected: bool)

  /** `(user_id, item_id)`, the key of an `inventory` row. */
  type Slot = (string, string)

  /** The guard of the decrementing `UPDATE ... WHERE ... AND quantity >= ?`: the row exists and holds enough. */
  predicate CanTake(inv: map<Slot, int>, slot: Slot, quantity: int) {
    slot in inv && inv[slot] >= quantity
  }

  /** The inventory after the guarded decrement and the `DELETE ... quantity <= 0` that follows it. */
  function Take(inv: map<Slot, int>, slot: Slot, quantity: int): (r: map<Slot, int>)
    requires CanTake(inv, slot, quantity)
    ensures slot in r <==> inv[slot] - quantity > 0
    ensures slot in r ==> r[slot] == inv[slot] - quantity
    ensures forall s :: s != slot ==> (s in r <==> s in inv) && (s in r ==> r[s] == inv[s])
  {
    var left := inv[slot] - quantity;
    if left <= 0 then inv - {slot} else inv[slot := left]
  }

  /** `INSERT ... ON CONFLICT(user_id, item_id) DO UPDATE SET quantity = quantity + excluded.quantity`. */
  function Credit(inv: map<Slot, int>, slot: Slot, quantity: int): (r: map<Slot, int>)
    ensures slot in r && r[slot] == (if slot in inv then inv[slot] else 0) + quantity
    ensures forall s :: s != slot ==> (s in r <==> s in inv) && (s in r ==> r[s] == inv[s])
  {
    inv[slot := (if slot in inv then inv[slot] else 0) + quantity]
  }

  /** Python's `min`, and SQLite's two-argument `MIN`. */
  function Min(a: int, b: int): int {
    if a <= b then a else b
  }

  /** The effect `UPDATE players SET experience = ..., gold = ..., hp = MIN(max_hp, hp + ?)` has on one player. */
  function Rewarded(p: Player, e: PlayerEffect): (q: Player)
    ensures q.hp <= p.maxHp && q.maxHp == p.maxHp
    ensures q.hp == p.hp + e.hp || q.hp == p.maxHp
    ensures q.hp <= p.hp + e.hp
    ensures q.experience == p.experience + e.experience && q.gold == p.gold + e.gold
    ensures q.(experience := p.experience, gold := p.gold, hp := p.hp) == p
  {
    p.(experience := p.experience + e.experience, gold := p.gold + e.gold, hp := Min(p.maxHp, p.hp + e.hp))
  }

  /** The inventory after crediting every `(item_id, quantity)` of `items` to `userId`. */
  ghost function CreditedAll(inv: map<Slot, int>, userId: string, items: map<string, int>): (r: map<Slot, int>)
  {
    map s | s in inv.Keys + (set i | i in items :: (userId, i)) ::
      (if s in inv then inv[s] else 0) + (if s.0 == userId && s.1 in items then items[s.1] else 0)
  }

  /** The row an `UPDATE players ... WHERE user_id = ?` for `p` writes, if any: the last such `p` wins. */
  function LastFor(ps: seq<Player>, userId: string): (r: Option<Player>)
    ensures r.Some? ==> r.value in ps && r.value.userId == userId
    ensures r.None? <==> forall p :: p in ps ==> p.userId != userId
  {
    if |ps| == 0 then None
    else if ps[|ps| - 1].userId == userId then Some(ps[|ps| - 1])
    else
      var r := LastFor(ps[..|ps| - 1], userId);
      assert ps == ps[..|ps| - 1] + [ps[|ps| - 1]];
      r
  }

  /** The row of `u` after updating with each of `ps` in turn: the last write for `u`, if any. */
  function RowAfter(players: map<string, Player>, ps: seq<Player>, u: string): Player
    requires u in players
  {
    match LastFor(ps, u)
    case Some(p) => p
    case None => players[u]
  }

  /**
   * The players table after updating it with each of `ps` in turn: an update for a user
   * without a row changes nothing, and the last update of a user wins.
   */
  function UpdatedWith(players: map<string, Player>, ps: seq<Player>): (r: map<string, Player>)
    ensures r.Keys == players.Keys
    ensures forall u :: u in r ==> r[u] == RowAfter(players, ps, u)
  {
    if |ps| == 0 then players
    else
      var before := UpdatedWith(players, ps[..|ps| - 1]);
      var last := ps[|ps| - 1];
      assert forall u :: u in players ==> LastFor(ps, u) == if last.userId == u then Some(last) else LastFor(ps[..|ps| - 1], u);
      if last.userId in before then before[last.userId := last] else before
  }

  /** The entries of `tasks` that satisfy `keep`, in table order. */
  function Select(tasks: seq<CollectionTask>, keep: CollectionTask -> bool): (r: seq<CollectionTask>)
    ensures forall t :: t in r <==> t in tasks && keep(t)
    ensures |r| <= |tasks|
  {
    if |tasks| == 0 then []
    else
      var rest := Select(tasks[1..], keep);
      assert tasks == [tasks[0]] + tasks[1..];
      if keep(tasks[0]) then [tasks[0]] + rest else rest
  }

  /** Row ids are increasing in table order and below the next id the table hands out. */
  ghost predicate TaskIdsFresh(tasks: seq<CollectionTask>, nextId: int) {
    (forall i, j :: 0 <= i < j < |tasks| ==> tasks[i].id < tasks[j].id)
    && (forall i :: 0 <= i < |tasks| ==> tasks[i].id < nextId)
  }

  /** The queue after `UPDATE resource_collection_queue SET collected = TRUE WHERE id = ?`. */
  function MarkCollected(tasks: seq<CollectionTask>, taskId: int): (r: seq<CollectionTask>)
    ensures |r| == |tasks|
    ensures forall i :: 0 <= i < |r| ==> r[i] == if tasks[i].id == taskId then tasks[i].(collected := true) else tasks[i]
  {
    if |tasks| == 0 then []
    else [if tasks[0].id == taskId then tasks[0].(collected := true) else tasks[0]] + MarkCollected(tasks[1..], taskId)
  }

  class DataBase {
    var players: map<string, Player>
    var inventory: map<Slot, int>
    var bosses: map<string, ActiveBoss>
    var damage: map<(string, string), DamageRow>
    var resources: map<(string, string), ResourceState>
    var tasks: seq<CollectionTask>
    var nextTaskId: int
    var creationStates: map<string, string>
    var creationData: map<(string, string), string>

    /** Each player row sits under its own user id; collection-task ids are fresh. */
    ghost predicate Valid()
      reads this
    {
      && (forall u :: u in players ==> players[u].userId == u)
      && TaskIdsFresh(tasks, nextTaskId)
    }

    constructor ()
      ensures Valid()
      ensures players == map[] && inventory == map[] && bosses == map[] && damage == map[]
      ensures resources == map[] && tasks == [] && creationStates == map[] && creationData == map[]
    {
      players, inventory, bosses, damage, resources := map[], map[], map[], map[], map[];
      tasks, nextTaskId := [], 1;
      creationStates, creationData := map[], map[];
    }

    // ----- players -----

    /** `get_player_by_id` */
    function GetPlayerById(userId: string): (r: Option<Player>)
      reads this
      ensures r.Some? <==> userId in players
      ensures r.Some? ==> r.value == players[userId]
    {
      if userId in players then Some(players[userId]) else None
    }

    /** `create_player`: a plain `INSERT`; a second row for the same user violates the key and raises. */
    method CreatePlayer(p: Player) returns (raised: bool)
      requires Valid()
      modifies this`players
      ensures Valid()
      ensures raised <==> p.userId in old(players)
      ensures players == if raised then old(players) else old(players)[p.userId := p]
    {
      raised := p.userId in players;
      if !raised {
        players := players[p.userId := p];
      }
    }

    /** `update_player`: overwrites every column of the row with `p`'s user id, if there is one. */
    method UpdatePlayer(p: Player)
      requires Valid()
      modifies this`players
      ensures Valid()
      ensures players == if p.userId in old(players) then old(players)[p.userId := p] else old(players)
    {
      if p.userId in players {
        players := players[p.userId := p];
      }
    }

    /** `get_players_in_map`: every player whose current map is `mapName`, each once. */
    method GetPlayersInMap(mapName: string) returns (r: seq<Player>)
      requires Valid()
      ensures forall p :: p in r <==> p.userId in players && players[p.userId] == p && p.currentMap == mapName
      ensures forall i, j :: 0 <= i < j < |r| ==> r[i].userId != r[j].userId
    {
      var rest := players.Keys;
      r := [];
      while rest != {}
        invariant rest <= players.Keys
        invariant forall p :: p in r <==> p.userId in players.Keys - rest && players[p.userId] == p && p.currentMap == mapName
        invariant forall i, j :: 0 <= i < j < |r| ==> r[i].userId != r[j].userId
        decreases rest
      {
        var u :| u in rest;
        if players[u].currentMap == mapName {
          assert forall p :: p in r ==> p.userId != u;
          r := r + [players[u]];
        }
        assert players.Keys - (rest - {u}) == (players.Keys - rest) + {u};
        rest := rest - {u};
      }
    }

    /** `update_players_in_transaction`: all the updates, or (on a store error) none and a raise. */
    method UpdatePlayersInTransaction(ps: seq<Player>, fault: bool) returns (raised: bool)
      requires Valid()
      modifies this`players
      ensures Valid()
      ensures raised <==> |ps| > 0 && fault
      ensures players == if raised then old(players) else UpdatedWith(old(players), ps)
    {
      if |ps| == 0 {
        assert UpdatedWith(players, ps) == players;
        return false;
      }
      var staged := players;
      var i := 0;
      while i < |ps|
        invariant 0 <= i <= |ps|
        invariant players == old(players)
        invariant staged == UpdatedWith(players, ps[..i])
      {
        assert ps[..i + 1][..i] == ps[..i];
        if ps[i].userId in staged {
          staged := staged[ps[i].userId := ps[i]];
        }
        i := i + 1;
      }
      assert ps[..i] == ps;
      raised := fault;
      if !raised {
        players := staged;
      }
    }

    // ----- inventory -----

    /** `get_item_from_inventory` */
    function GetItemFromInventory(userId: string, itemId: string): (r: Option<int>)
      reads this
      ensures r.Some? <==> (userId, itemId) in inventory
      ensures r.Some? ==> r.value == inventory[(userId, itemId)]
    {
      if (userId, itemId) in inventory then Some(inventory[(userId, itemId)]) else None
    }

    /** `add_items_to_inventory_in_transaction`: every credit of `items`, or (on a store error) none and a raise. */
    method AddItemsToInventoryInTransaction(userId: string, items: map<string, int>, fault: bool) returns (raised: bool)
      modifies this`inventory
      ensures raised == fault
      ensures inventory == if raised then old(inventory) else CreditedAll(old(inventory), userId, items)
    {
      var staged := inventory;
      var done: map<string, int> := map[];
      var rest := items.Keys;
      while rest != {}
        invariant rest <= items.Keys
        invariant done.Keys == items.Keys - rest
        invariant forall i :: i in done ==> done[i] == items[i]
        invariant inventory == old(inventory)
        invariant staged == CreditedAll(inventory, userId, done)
        decreases rest
      {
        var i :| i in rest;
        CreditedAllStep(inventory, userId, done, i, items[i]);
        staged := Credit(staged, (userId, i), items[i]);
        done := done[i := items[i]];
        rest := rest - {i};
      }
      assert done == items;
      raised := fault;
      if !raised {
        inventory := staged;
      }
    }

    /** `remove_item_from_inventory`: the guarded decrement, deleting a row that reaches zero. */
    method RemoveItemFromInventory(userId: string, itemId: string, quantity: int := 1, fault: bool := false) returns (ok: bool)
      modifies this`inventory
      ensures ok <==> !fault && CanTake(old(inventory), (userId, itemId), quantity)
      ensures inventory == if ok then Take(old(inventory), (userId, itemId), quantity) else old(inventory)
    {
      ok := !fault && CanTake(inventory, (userId, itemId), quantity);
      if ok {
        inventory := Take(inventory, (userId, itemId), quantity);
      }
    }

    /** `transactional_buy_item`: debit the gold only if it covers the cost, and then credit the item. */
    method TransactionalBuyItem(userId: string, itemId: string, quantity: int, totalCost: int, fault: bool)
      returns (ok: bool, code: string)
      requires Valid()
      modifies this`players, this`inventory
      ensures Valid()
      ensures var funded := userId in old(players) && old(players)[userId].gold >= totalCost;
        && (fault ==> code == "ERROR_DATABASE")
        && (!fault && !funded ==> code == "ERROR_INSUFFICIENT_FUNDS")
        && (ok <==> !fault && funded)
        && (ok ==> code == "SUCCESS")
    ensures !ok ==> players == old(players) && inventory == old(inventory)
      ensures ok ==> && players == old(players)[userId := old(players)[userId].(gold := old(players)[userId].gold - totalCost)]
                     && players[userId].gold >= 0
                     && inventory == Credit(old(inventory), (userId, itemId), quantity)
    {
      if fault {
        return false, "ERROR_DATABASE";
      }
      if !(userId in players && players[userId].gold >= totalCost) {
        return false, "ERROR_INSUFFICIENT_FUNDS";
      }
      var p := players[userId];
      players := players[userId := p.(gold := p.gold - totalCost)];
      inventory := Credit(inventory, (userId, itemId), quantity);
      ok, code := true, "SUCCESS";
    }

    /**
     * `transactional_apply_item_effect`: consume the items and grant the effect together,
     * or change nothing when too few are held.
     */
    method TransactionalApplyItemEffect(userId: string, itemId: string, quantity: int, effect: PlayerEffect, fault: bool)
      returns (ok: bool)
      requires Valid()
      modifies this`players, this`inventory
      ensures Valid()
      ensures ok <==> !fault && CanTake(old(inventory), (userId, itemId), quantity)
      ensures !ok ==> players == old(players) && inventory == old(inventory)
      ensures ok ==> inventory == Take(old(inventory), (userId, itemId), quantity)
      ensures ok ==> players == if userId in old(players)
                                then old(players)[userId := Rewarded(old(players)[userId], effect)]
                                else old(players)
    {
      ok := !fault && CanTake(inventory, (userId, itemId), quantity);
      if ok {
        inventory := Take(inventory, (userId, itemId), quantity);
        if userId in players {
          players := players[userId := Rewarded(players[userId], effect)];
        }
      }
    }

    // ----- world bosses -----

    /** `create_active_boss`: a plain `INSERT`; a second row for the same boss raises. */
    method CreateActiveBoss(boss: ActiveBoss) returns (raised: bool)
      modifies this`bosses
      ensures raised <==> boss.bossId in old(bosses)
      ensures bosses == if raised then old(bosses) else old(bosses)[boss.bossId := boss]
    {
      raised := boss.bossId in bosses;
      if !raised {
        bosses := bosses[boss.bossId := boss];
      }
    }

    /** `update_active_boss_hp` */
    method UpdateActiveBossHp(bossId: string, newHp: int)
      modifies this`bosses
      ensures bosses == if bossId in old(bosses) then old(bosses)[bossId := old(bosses)[bossId].(currentHp := newHp)] else old(bosses)
    {
      if bossId in bosses {
        bosses := bosses[bossId := bosses[bossId].(currentHp := newHp)];
      }
    }

    /** `record_boss_damage`: accumulate the damage; a user's first hit inserts the row with its name. */
    method RecordBossDamage(bossId: string, userId: string, userName: string, amount: int)
      modifies this`damage
      ensures var k := (bossId, userId);
        damage == old(damage)[k := if k in old(damage)
                                   then old(damage)[k].(totalDamage := old(damage)[k].totalDamage + amount)
                                   else DamageRow(userName, amount)]
    {
      var k := (bossId, userId);
      if k in damage {
        damage := damage[k := damage[k].(totalDamage := damage[k].totalDamage + amount)];
      } else {
        damage := damage[k := DamageRow(userName, amount)];
      }
    }

    /** The boss's ledger entry for `p`'s user holds exactly `p`'s name and damage. */
    ghost predicate Fought(bossId: string, p: Participant)
      reads this
    {
      (bossId, p.userId) in damage && damage[(bossId, p.userId)] == DamageRow(p.userName, p.totalDamage)
    }

    /**
     * `get_boss_participants`: each participant of the boss exactly once, in non-increasing
     * order of total damage.
     */
    method GetBossParticipants(bossId: string) returns (r: seq<Participant>)
      ensures SortedDesc(r, (p: Participant) => p.totalDamage)
      ensures forall p :: multiset(r)[p] == if Fought(bossId, p) then 1 else 0
    {
      var rest := damage.Keys;
      var found: seq<Participant> := [];
      while rest != {}
        invariant rest <= damage.Keys
        invariant forall p :: (multiset(found)[p] ==
                                 if (bossId, p.userId) in damage.Keys - rest && Fought(bossId, p) then 1 else 0)
        decreases rest
      {
        var k :| k in rest;
        if k.0 == bossId {
          found := found + [Participant(k.1, damage[k].userName, damage[k].totalDamage)];
        }
        rest := rest - {k};
      }
      r := SortDesc(found, (p: Participant) => p.totalDamage);
    }

    /** `clear_boss_data`: the boss row and all its participant rows go together, or neither does. */
    method ClearBossData(bossId: string, fault: bool)
      modifies this`bosses, this`damage
      ensures fault ==> bosses == old(bosses) && damage == old(damage)
      ensures !fault ==> bosses == old(bosses) - {bossId}
      ensures !fault ==> forall k :: (k in damage <==> k in old(damage) && k.0 != bossId)
                                     && (k in damage ==> damage[k] == old(damage)[k])
    {
      if !fault {
        bosses := bosses - {bossId};
        damage := map k | k in damage && k.0 != bossId :: damage[k];
      }
    }

    /** `delete_active_boss`: only the boss row; the participant rows stay. */
    method DeleteActiveBoss(bossId: string)
      modifies this`bosses
      ensures bosses == old(bosses) - {bossId}
    {
      bosses := bosses - {bossId};
    }

    // ----- map resource points -----

    /** `get_map_resource` */
    function GetMapResource(mapName: string, resourceName: string): (r: Option<ResourceState>)
      reads this
      ensures r.Some? <==> (mapName, resourceName) in resources
      ensures r.Some? ==> r.value == resources[(mapName, resourceName)]
    {
      if (mapName, resourceName) in resources then Some(resources[(mapName, resourceName)]) else None
    }

    /** `update_map_resource`: `INSERT OR REPLACE`, whatever the point held before. */
    method UpdateMapResource(mapName: string, resourceName: string, currentQuantity: int, lastRefreshTime: int)
      modifies this`resources
      ensures resources == old(resources)[(mapName, resourceName) := ResourceState(currentQuantity, lastRefreshTime)]
      ensures GetMapResource(mapName, resourceName) == Some(ResourceState(currentQuantity, lastRefreshTime))
    {
      resources := resources[(mapName, resourceName) := ResourceState(currentQuantity, lastRefreshTime)];
    }

    // ----- resource collection queue -----

    /** `add_resource_collection_task`: appends an uncollected task under a fresh id, and returns nothing. */
    method AddResourceCollectionTask(userId: string, mapName: string, resourceName: string,
                                     startTime: int, completionTime: int, quantity: int, sessionId: Option<string>)
      requires Valid()
      modifies this`tasks, this`nextTaskId
      ensures Valid()
      ensures forall t :: t in old(tasks) ==> t.id != old(nextTaskId)
      ensures tasks == old(tasks) + [CollectionTask(old(nextTaskId), userId, mapName, resourceName, startTime,
                                                    completionTime, quantity, sessionId, false)]
    {
      tasks := tasks + [CollectionTask(nextTaskId, userId, mapName, resourceName, startTime, completionTime, quantity, sessionId, false)];
      nextTaskId := nextTaskId + 1;
    }

    /** `get_user_active_collection_tasks`: the user's uncollected tasks. */
    function GetUserActiveCollectionTasks(userId: string): (r: seq<CollectionTask>)
      reads this
      ensures forall t :: t in r <==> t in tasks && t.userId == userId && !t.collected
    {
      Select(tasks, (t: CollectionTask) => t.userId == userId && !t.collected)
    }

    /** `get_resource_collection_task`: the first uncollected task of the user on that resource point. */
    function GetResourceCollectionTask(userId: string, mapName: string, resourceName: string): (r: Option<CollectionTask>)
      reads this
      ensures r.None? <==> forall t :: t in tasks ==> !(t.userId == userId && t.mapName == mapName
                                                         && t.resourceName == resourceName && !t.collected)
      ensures r.Some? ==> r.value in tasks && r.value.userId == userId && r.value.mapName == mapName
                          && r.value.resourceName == resourceName && !r.value.collected
    {
      var hits := Select(tasks, (t: CollectionTask) => t.userId == userId && t.mapName == mapName
                                                       && t.resourceName == resourceName && !t.collected);
      if |hits| == 0 then None else assert hits[0] in hits; Some(hits[0])
    }

    /** `get_completed_resource_collection_tasks`: the user's tasks that are due at `now` and not yet collected. */
    function GetCompletedResourceCollectionTasks(userId: string, now: int): (r: seq<CollectionTask>)
      reads this
      ensures forall t :: t in r <==> t in tasks && t.userId == userId && t.completionTime <= now && !t.collected
    {
      Select(tasks, (t: CollectionTask) => t.userId == userId && t.completionTime <= now && !t.collected)
    }

    /** `get_all_pending_resource_tasks`: every user's tasks that are due at `now` and not yet collected. */
    function GetAllPendingResourceTasks(now: int): (r: seq<CollectionTask>)
      reads this
      ensures forall t :: t in r <==> t in tasks && t.completionTime <= now && !t.collected
    {
      Select(tasks, (t: CollectionTask) => t.completionTime <= now && !t.collected)
    }

    /**
     * `complete_resource_collection_task`: sets `collected` and reports whether that task exists.
     * A task that was already collected is marked again and also reports true.
     */
    method CompleteResourceCollectionTask(taskId: int, fault: bool) returns (ok: bool)
      requires Valid()
      modifies this`tasks
      ensures Valid()
      ensures ok <==> !fault && exists t :: t in old(tasks) && t.id == taskId
      ensures tasks == if ok then MarkCollected(old(tasks), taskId) else old(tasks)
    {
      var marked := MarkCollected(tasks, taskId);
      ok := !fault && exists t :: t in tasks && t.id == taskId;
      if ok {
        tasks := marked;
      }
    }

    /** `remove_completed_resource_collection_task`: deletes that row, collected or not. */
    method RemoveCompletedResourceCollectionTask(taskId: int)
      requires Valid()
      modifies this`tasks
      ensures Valid()
      ensures tasks == Select(old(tasks), (t: CollectionTask) => t.id != taskId)
    {
      var kept := Select(tasks, (t: CollectionTask) => t.id != taskId);
      SelectKeepsFresh(tasks, (t: CollectionTask) => t.id != taskId, nextTaskId);
      tasks := kept;
    }

    // ----- character creation -----

    /** `set_player_creation_state`: `INSERT OR REPLACE`. */
    method SetPlayerCreationState(userId: string, state: string)
      modifies this`creationStates
      ensures creationStates == old(creationStates)[userId := state]
    {
      creationStates := creationStates[userId := state];
    }

    /** `get_player_creation_state` */
    function GetPlayerCreationState(userId: string): (r: Option<string>)
      reads this
      ensures r.Some? <==> userId in creationStates
      ensures r.Some? ==> r.value == creationStates[userId]
    {
      if userId in creationStates then Some(creationStates[userId]) else None
    }

    /** `set_player_creation_data`: `INSERT OR REPLACE` under `(user_id, data_key)`. */
    method SetPlayerCreationData(userId: string, key: string, value: string)
      modifies this`creationData
      ensures creationData == old(creationData)[(userId, key) := value]
    {
      creationData := creationData[(userId, key) := value];
    }

    /** `clear_player_creation_state`: the state row only; the creation data stays. */
    method ClearPlayerCreationState(userId: string)
      modifies this`creationStates
      ensures creationStates == old(creationStates) - {userId}
    {
      creationStates := creationStates - {userId};
    }

    /**
     * `get_player_avatar_data`: the `players.avatar` column when it is set and non-empty,
     * else the creation-data avatar, else "default_avatar".
     */
    function GetPlayerAvatarData(userId: string): (r: string)
      reads this
      ensures userId in players && players[userId].avatar.Some? && players[userId].avatar.value != ""
              ==> r == players[userId].avatar.value
      ensures !(userId in players && players[userId].avatar.Some? && players[userId].avatar.value != "")
              ==> r == (if (userId, "avatar") in creationData then creationData[(userId, "avatar")] else "default_avatar")
    {
      if userId in players && players[userId].avatar.Some? && players[userId].avatar.value != "" then
        players[userId].avatar.value
      else if (userId, "avatar") in creationData then creationData[(userId, "avatar")]
      else "default_avatar"
    }
  }

  /** Crediting one more item to the fold is the fold over the larger map. */
  lemma CreditedAllStep(inv: map<Slot, int>, userId: string, done: map<string, int>, i: string, q: int)
    requires i !in done
    ensures CreditedAll(inv, userId, done[i := q]) == Credit(CreditedAll(inv, userId, done), (userId, i), q)
  {
    var a := CreditedAll(inv, userId, done[i := q]);
    var b := Credit(CreditedAll(inv, userId, done), (userId, i), q);
    assert a.Keys == b.Keys;
    forall s | s in a
      ensures a[s] == b[s]
    {
    }
  }

  /** Deleting rows keeps the ids increasing and below the next id. */
  lemma {:induction false} SelectKeepsFresh(tasks: seq<CollectionTask>, keep: CollectionTask -> bool, nextId: int)
    requires TaskIdsFresh(tasks, nextId)
    ensures TaskIdsFresh(Select(tasks, keep), nextId)
  {
    if |tasks| > 0 {
      var tail := tasks[1..];
      assert TaskIdsFresh(tail, nextId) by {
        assert forall i :: 0 <= i < |tail| ==> tail[i] == tasks[i + 1];
      }
      SelectKeepsFresh(tail, keep, nextId);
      var rest := Select(tail, keep);
      if keep(tasks[0]) {
        var r := [tasks[0]] + rest;
        forall j | 0 <= j < |rest| ensures tasks[0].id < rest[j].id {
          assert rest[j] in tail;
          var k :| 0 <= k < |tail| && tail[k] == rest[j];
          assert tail[k] == tasks[k + 1];
        }
        assert forall i :: 0 < i < |r| ==> r[i] == rest[i - 1];
        assert Select(tasks, keep) == r;
      } else {
        assert Select(tasks, keep) == rest;
      }
    }
  }

}
