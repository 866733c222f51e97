# A verified model of the 重生之凡人修仙 cultivation game's state logic

This project is a Dafny model of the state-changing core of a chat-bot cultivation game, an AstrBot plugin named `astrbot_plugin_re_xiuxian_shell`. It also proves properties of that model. The game keeps its state in two separate SQLite stacks, and the model keeps them apart too:

- **The player ledger** (`DataManager`): players, inventory keyed by `(user, item)`, world bosses and their damage ledger, map resource points, the resource-collection queue and the character-creation tables. Each `BEGIN … commit/rollback` block is one method, and its postcondition is "all effects, or no change". A store error inside a block is the `fault` input, which the source answers with a rollback.
- **The repositories** (`UserRepo`, `ItemRepo`, `InventoryRepo`, `SectRepo`, `LogRepo`): keyed and auto-numbered tables held as class fields. They model insert-or-ignore, unique-name rejection, accumulate-or-insert upserts, decoding defaults and filtered, sorted and limited queries.
- **The services** (`CultivationService`, `UserService`, `InventoryService`, `SectService`, `DataSetup`): state machines over a user's flags and timestamps, the guard order of item use, talent buckets, seed data. `Migration` models ordered, idempotent migration runs.
- **The command glue** (`CreationHandler`, `MapHandler`, `InventoryHandlers`, `SectHandlers`, `Plugin`):
  - argument parsing;
  - the character-creation state machine;
  - the adjacent-map movement rule;
  - the configuration name indexes (`ConfigManager`);
  - the group whitelist.

Time is whole seconds passed in as `now`. Randomness is passed in as the draw or the index it produced. Floating-point amounts (cultivation, contributions, rewards) are integers, and an item's `effect_value` is kept in hundredths. Python truthiness of an optional column is `Truthy`/`TruthyInt`. The helper modules are:

- `Wrappers` (`Option`);
- `Text` (the `str` operations used: `strip`, slicing, `startswith`, `int()`, `str()`);
- `Ordering` (`ORDER BY … DESC` and `LIMIT`);
- `Clock` (`timedelta.seconds`);
- `Models` (the records of `core/domain/models.py`).

Where the design description of the system and the code disagree, the model follows the code:

- Resource refresh and harvest: the design has a node refill to its maximum once its refresh interval has passed, and a harvest debit the node in the same transaction. The code only stores the amount and refresh time it is given. It has no refresh, harvest or debit rule (data/data_manager.py:377-385).
- The scheduler's resolve guard: the design has resolving a task re-check its resolved flag, so a second resolve does nothing. `complete_resource_collection_task` does not check whether a task was already collected (data/data_manager.py:438-458).
- One open task per subject: the design allows at most one unresolved task per user, category and subject. The code has no uniqueness check on a user's unresolved collection tasks (data/data_manager.py:387-397).
- One closing at a time: the design forbids being in a closing and a deep closing at once. In the code a user can be in both, since neither start checks the other kind of closing (core/services/cultivation_service.py:21-45 and 111-131).

## Model

| member | source | states |
|---|---|---|
| DataManager.Take | data/data_manager.py:243-256 | the guarded decrement leaves the rest of the stack, and deletes the row when nothing is left; no other row changes |
| DataManager.Credit | data/data_manager.py:229-233 | the upsert adds the quantity to the stack (or starts one) and changes nothing else |
| DataManager.Rewarded | data/data_manager.py:304-313 | experience and gold grow by the effect; hp becomes the smaller of `hp` plus the effect and `max_hp`; nothing else changes |
| DataManager.LastFor | data/data_manager.py:129-130 | the update a user's row ends with is one of that user's and exists exactly when one of the players is that user's |
| DataManager.UpdatedWith | data/data_manager.py:129-130 | the table keeps its keys and each row ends as its user's last update, or unchanged without one |
| DataManager.Select | data/data_manager.py:466 | the kept rows are exactly the rows satisfying the condition |
| DataManager.MarkCollected | data/data_manager.py:443-446 | exactly the rows with that id become collected, position by position |
| DataManager.DataBase.constructor | data/data_manager.py:18-22 | every table starts empty |
| DataManager.DataBase.GetPlayerById | data/data_manager.py:101-104 | a player is found exactly when stored, and is the stored row |
| DataManager.DataBase.CreatePlayer | data/data_manager.py:106-112 | the plain `INSERT` raises exactly when the user already has a row; otherwise the row is added |
| DataManager.DataBase.UpdatePlayer | data/data_manager.py:114-119 | the player's row is overwritten when it exists; otherwise nothing changes |
| DataManager.DataBase.GetPlayersInMap | data/data_manager.py:321-325 | exactly the stored players on the map, each once |
| DataManager.DataBase.UpdatePlayersInTransaction | data/data_manager.py:121-135 | an empty list does nothing; otherwise all updates apply, last one winning, or on a store error none do and it raises |
| DataManager.DataBase.GetItemFromInventory | data/data_manager.py:188-192 | found exactly when the `(user_id, item_id)` row exists |
| DataManager.DataBase.AddItemsToInventoryInTransaction | data/data_manager.py:225-238 | every credit applies, or on a store error none does and it raises |
| DataManager.DataBase.RemoveItemFromInventory | data/data_manager.py:240-262 | true exactly when the row holds enough and no store error occurs; the stack is then `Take`n, otherwise unchanged; `quantity` defaults to 1 |
| DataManager.DataBase.TransactionalBuyItem | data/data_manager.py:264-287 | with enough gold the gold is debited and the item credited, each reported by its code; otherwise, or on a store error, nothing changes |
| DataManager.DataBase.TransactionalApplyItemEffect | data/data_manager.py:289-319 | the items are taken and the effect `Rewarded` together, or nothing changes (too few items, store error) |
| DataManager.DataBase.CreateActiveBoss | data/data_manager.py:51-56 | raises exactly when the boss already has a row; otherwise it is added |
| DataManager.DataBase.UpdateActiveBossHp | data/data_manager.py:58-63 | only the boss's current hp changes, and only when the boss exists |
| DataManager.DataBase.RecordBossDamage | data/data_manager.py:69-75 | damage accumulates on the `(boss_id, user_id)` row; a first hit inserts it with the user's name |
| DataManager.DataBase.GetBossParticipants | data/data_manager.py:77-81 | the boss's participants, each once, highest total damage first |
| DataManager.DataBase.ClearBossData | data/data_manager.py:83-92 | the boss row and all its participant rows go together, or on a store error neither does |
| DataManager.DataBase.DeleteActiveBoss | data/data_manager.py:65-67 | only the boss row goes; participant rows stay |
| DataManager.DataBase.GetMapResource | data/data_manager.py:369-375 | found exactly when the `(map_name, resource_name)` row exists |
| DataManager.DataBase.UpdateMapResource | data/data_manager.py:377-385 | `INSERT OR REPLACE`: the point then reads back as written |
| DataManager.DataBase.AddResourceCollectionTask | data/data_manager.py:387-397 | an uncollected task is appended under an id no earlier task has; nothing is returned |
| DataManager.DataBase.GetUserActiveCollectionTasks | data/data_manager.py:399-405 | exactly the user's uncollected tasks |
| DataManager.DataBase.GetResourceCollectionTask | data/data_manager.py:407-419 | an uncollected task of the user on that map and resource, found exactly when one exists |
| DataManager.DataBase.GetCompletedResourceCollectionTasks | data/data_manager.py:421-427 | exactly the user's uncollected tasks due at the given time |
| DataManager.DataBase.GetAllPendingResourceTasks | data/data_manager.py:429-436 | exactly the uncollected tasks of any user due at the given time |
| DataManager.DataBase.CompleteResourceCollectionTask | data/data_manager.py:438-462 | true exactly when a task with that id exists and no store error occurs, and then it is marked collected; otherwise nothing changes |
| DataManager.DataBase.RemoveCompletedResourceCollectionTask | data/data_manager.py:464-467 | that row goes, collected or not; the rest keep their order |
| DataManager.DataBase.SetPlayerCreationState | data/data_manager.py:194-200 | `INSERT OR REPLACE` of the user's state |
| DataManager.DataBase.GetPlayerCreationState | data/data_manager.py:202-210 | found exactly when the user has a state row |
| DataManager.DataBase.SetPlayerCreationData | data/data_manager.py:212-218 | `INSERT OR REPLACE` under `(user_id, data_key)` |
| DataManager.DataBase.ClearPlayerCreationState | data/data_manager.py:220-223 | only the state row goes; the creation data stays |
| DataManager.DataBase.GetPlayerAvatarData | data/data_manager.py:336-356 | a non-empty `players.avatar` first, else the stored creation data, else `default_avatar` |
| DataManager.CreditedAllStep | data/data_manager.py:228-233 | crediting one more item is the credit of that item on top of the earlier ones |
| DataManager.SelectKeepsFresh | data/data_manager.py:464-467 | deleting queue rows keeps the ids increasing and below the next id |
| InventoryRepo.Added | core/repositories/sqlite_inventory_repo.py:39-67 | the held count grows by the quantity, in the existing row or a new one; no other row changes |
| InventoryRepo.Removed | core/repositories/sqlite_inventory_repo.py:69-104 | possible exactly when the row holds at least the quantity; the count drops by it, the row is deleted when it would hold exactly nothing, and no other row changes |
| InventoryRepo.AddThenRemoveRestores | core/repositories/sqlite_inventory_repo.py:39-104 | adding a positive quantity and removing it again restores the table |
| InventoryRepo.StockStaysPositive | core/repositories/sqlite_inventory_repo.py:39-104 | positive additions and removals keep every stored stack positive |
| InventoryRepo.Decode | core/repositories/sqlite_inventory_repo.py:142-148 | the decoded item carries the row's key, id and quantity |
| InventoryRepo.InventoryRepository.constructor | core/repositories/sqlite_inventory_repo.py:22-37 | the table starts empty |
| InventoryRepo.InventoryRepository.AddItem | core/repositories/sqlite_inventory_repo.py:39-67 | always true; the table becomes `Added` |
| InventoryRepo.InventoryRepository.RemoveItem | core/repositories/sqlite_inventory_repo.py:69-104 | true exactly when the user holds enough; the table becomes `Removed`, otherwise is unchanged |
| InventoryRepo.InventoryRepository.GetUserItem | core/repositories/sqlite_inventory_repo.py:128-148 | found exactly when the `(user_id, item_id)` row exists |
| InventoryRepo.InventoryRepository.HasItem | core/repositories/sqlite_inventory_repo.py:150-155 | true exactly when a row exists and holds at least the quantity |
| InventoryRepo.InventoryRepository.GetUserItems | core/repositories/sqlite_inventory_repo.py:106-126 | exactly the user's rows, decoded, each item once |
| InventoryService.CheckRequirement | core/services/inventory_service.py:54-60 | the 炼气大圆满 requirement holds exactly at that realm; every other requirement holds |
| InventoryService.EffectOf | core/services/inventory_service.py:62-91 | only pills can apply; 筑基丹 raises 炼气大圆满 to 筑基初期 and is refused at any other realm, and any other 突破 pill gets the unknown-type refusal; a gain pill without an effect value raises, and with one it adds the same gain to cultivation and total experience, saves and reports the gain; a cleansing pill leaves the user as is, unsaved; materials are refused, and so are pills with no or another effect type and items of any other type |
| InventoryService.InventoryService.constructor | core/services/inventory_service.py:9-17 | the service holds the three repositories it is given |
| InventoryService.InventoryService.GetUserInventory | core/services/inventory_service.py:19-29 | exactly the user's inventory rows whose item template exists, each with that template, and each item once |
| InventoryService.InventoryService.ApplyItemEffect | core/services/inventory_service.py:62-91 | the outcome is `EffectOf`'s, and the user row is saved exactly when the effect changes the user |
| InventoryService.InventoryService.AddItemToUser | core/services/inventory_service.py:93-95 | always true; the inventory becomes `Added` |
| InventoryService.InventoryService.RemoveItemFromUser | core/services/inventory_service.py:97-99 | true exactly when the user holds enough; the inventory becomes `Removed`, otherwise is unchanged |
| InventoryService.InventoryService.UseItem | core/services/inventory_service.py:31-52 | an unknown name, too few held or an unmet requirement refuses before any effect with no change; otherwise the effect applies and the items are removed exactly when it succeeds |
| CultivationService.Setting | core/services/cultivation_service.py:29 | a configured setting wins; otherwise the default |
| CultivationService.DeviationLoss | core/services/cultivation_service.py:102 | a tenth of a positive cultivation rounded down, and nothing otherwise |
| CultivationService.ClosingRefusal | core/services/cultivation_service.py:21-36 | a closing is refused exactly while closing, within the cooldown after the last closing, or as a hermit outside the 炼气 realms |
| CultivationService.ClosingEnd | core/services/cultivation_service.py:54-55 | the end exists exactly when a start and a non-zero duration are recorded, and is their sum |
| CultivationService.ClosingCleared | core/services/cultivation_service.py:64-67 | the three closing fields are cleared and nothing else changes |
| CultivationService.Completed | core/services/cultivation_service.py:71-109 | every outcome clears the closing, counts it once and starts the cooldown now; success adds the gain to cultivation and total experience; deviation never leaves cultivation negative; nothing else changes |
| CultivationService.DeepRefusal | core/services/cultivation_service.py:111-122 | a deep closing is refused exactly while one is running or within the deep cooldown |
| CultivationService.DeepCompleted | core/services/cultivation_service.py:138-144 | the gain goes to cultivation and total experience, the end is cleared and the closing counted, nothing else changes |
| CultivationService.CompletionStartsCooldown | core/services/cultivation_service.py:24-105 | after any completion a new closing is refused until the cooldown has passed, and then allowed (a hermit beyond 炼气 excepted) |
| CultivationService.DeepStartBlocksRestart | core/services/cultivation_service.py:114-127 | a deep closing just started is refused again until its end |
| CultivationService.CultivationService.constructor | core/services/cultivation_service.py:11-19 | the service holds the repositories and settings it is given |
| CultivationService.CultivationService.StartClosing | core/services/cultivation_service.py:21-45 | refused with no change exactly as `ClosingRefusal` says; otherwise closing starts now for the configured duration and is saved |
| CultivationService.CultivationService.CompleteClosing | core/services/cultivation_service.py:71-109 | the user becomes `Completed`, is saved, and one closing log row is appended |
| CultivationService.CultivationService.CheckClosing | core/services/cultivation_service.py:47-69 | refused when not closing; missing data resets the three fields; before the end nothing changes; at or after it the closing completes |
| CultivationService.CultivationService.StartDeep | core/services/cultivation_service.py:111-131 | refused with no change exactly as `DeepRefusal` says; otherwise it ends after the configured duration, restarts the cooldown and is saved and logged |
| CultivationService.CultivationService.CheckDeep | core/services/cultivation_service.py:133-154 | refused without a deep closing; at or after the end it becomes `DeepCompleted`, saved and logged; before the end nothing changes |
| CultivationService.CultivationService.ToggleHermit | core/services/cultivation_service.py:177-191 | enabling is refused outside the 炼气 realms; disabling always succeeds; on success only the flag changes, saved and logged |
| UserRepo.RealmOf | core/repositories/sqlite_user_repo.py:80 | a NULL or empty stored realm reads as `炼气一层`, any other as stored; the result is never empty |
| UserRepo.Decode | core/repositories/sqlite_user_repo.py:72-96 | the decoded user keeps the row's id and user id, takes the realm default, and reads NULL cultivation and counters as 0 and NULL flags as false |
| UserRepo.Written | core/repositories/sqlite_user_repo.py:103-126 | `update_user` overwrites every column but `id`, `user_id` and `created_at` |
| UserRepo.Updated | core/repositories/sqlite_user_repo.py:103-126 | only the row under the user's own id changes, and without such a row nothing does |
| UserRepo.ReadAfterUpdate | core/repositories/sqlite_user_repo.py:62-152 | reading a user back after `update_user` gives every written attribute, except that an empty realm reads as the default |
| UserRepo.UserRepository.constructor | core/repositories/sqlite_user_repo.py:12-48 | the table starts empty |
| UserRepo.UserRepository.GetByUserId | core/repositories/sqlite_user_repo.py:62-97 | a user is found exactly when a row has that user id, and is that row decoded |
| UserRepo.UserRepository.CreateUser | core/repositories/sqlite_user_repo.py:50-60 | `INSERT OR IGNORE`: an existing row (nickname included) stays as it is, otherwise a row with the column defaults is added; the stored user is returned |
| UserRepo.UserRepository.UpdateUser | core/repositories/sqlite_user_repo.py:99-152 | true exactly when the user has a row; the table becomes `Updated` |
| UserRepo.UserRepository.RankedUsers | core/repositories/sqlite_user_repo.py:158-160 | the candidates are exactly the decoded users whose stored cultivation is above 0, each user once |
| UserRepo.UserRepository.GetCultivationRanking | core/repositories/sqlite_user_repo.py:154-194 | highest cultivation first, at most `limit` users, only users above 0, none left out ranks above one listed, all of them for a negative limit, and exactly `limit` of them whenever one is left out; each user appears once; `limit` defaults to 10 |
| UserService.Choice | core/services/user_service.py:69 | `random.choice` returns a member of the pool |
| UserService.PoolAsWritten | core/services/user_service.py:67-78 | each bucket's slice of the talent list, as sliced in the code, is non-empty |
| UserService.Pool | core/services/user_service.py:55-81 | each bucket's pool of talents with the number of roots its comment names is non-empty |
| UserService.PoolsAreSlices | core/services/user_service.py:67-78 | the corrected pools are the slices `[:5]`, `[5:18]`, `[18:27]` and `[27:32]` of the talent list, and 五行齐全 is its last entry |
| UserService.TripleRootBucketAsWrittenYieldsDoubleRoot | core/services/user_service.py:73-75 | the triple-root bucket as sliced can hand out 土木, a double root |
| UserService.QuadrupleRootBucketAsWrittenHoldsNoQuadrupleRoot | core/services/user_service.py:76-78 | the quadruple-root bucket as sliced holds only triple roots |
| UserService.PoolsMatchRootCounts | core/services/user_service.py:55-81 | every talent of a corrected pool has as many roots as its bucket promises |
| UserService.TalentFor | core/services/user_service.py:55-82 | the corrected draw: 1-9 yields no talent; 10-30 a single root; 31-60, 61-80 and 81-95 a talent of their corrected pools; 96-100 五行齐全 |
| UserService.TalentAsWritten | core/services/user_service.py:55-82 | the draw as the code slices it: 1-9 yields no talent; 10-30 a single root; 31-60, 61-80 and 81-95 a talent of the slices `[5:14]`, `[14:19]` and `[19:24]`; 96-100 五行齐全; outside 31-95 it agrees with the corrected draw |
| UserService.DoubleRootBucketAsWrittenMissesFour | core/services/user_service.py:70-72 | as sliced, the double-root bucket hands out only double roots, and never 土木, 金土, 火土 or 水土 |
| UserService.AsWrittenDiffersFromCorrected | core/services/user_service.py:73-75 | a draw of 70 with the first choice gives 土木 as written and 金火水 as corrected |
| UserService.TalentHasBucketRootCount | core/services/user_service.py:55-81 | a draw of 10-95 yields a talent with one, two, three or four roots by its range |
| UserService.DaoName | core/services/user_service.py:84-87 | one listed prefix followed by one listed suffix |
| UserService.NicknameAfter | core/services/user_service.py:51-52 | the platform nickname replaces the nickname only when given and the user has none |
| UserService.UserService.constructor | core/services/user_service.py:8-9 | the service holds the user repository it is given |
| UserService.UserService.GetOrCreateUser | core/services/user_service.py:38-43 | an existing user is returned and nothing changes; otherwise exactly one new row is created and returned |
| UserService.UserService.DrawTalent | core/services/user_service.py:63-82 | the loop over the draw ranges yields `TalentAsWritten`, the talent of the code's slices |
| UserService.UserService.DetectTalent | core/services/user_service.py:45-95 | refused with no change when a talent is set; otherwise nickname, talent (drawn from the code's slices), Daoist name, first realm and zero cultivation are set and saved, true exactly when the user has a row |
| UserService.UserService.UpdateUserNickname | core/services/user_service.py:97-100 | only the nickname changes, saved, true exactly when the user has a row |
| SectRepo.Decode | core/repositories/sqlite_sect_repo.py:75-84 | a NULL or zero member count reads as 1, a NULL contribution as 0 and a NULL activity as active; id and name are kept |
| SectRepo.Written | core/repositories/sqlite_sect_repo.py:132-139 | `update_sect` writes description, founder, member count, contribution and activity, and keeps id, name and creation time |
| SectRepo.ReadAfterUpdate | core/repositories/sqlite_sect_repo.py:65-149 | reading a sect back after `update_sect` gives the written values, except that a member count of 0 reads as 1 |
| SectRepo.IndexOfId | core/repositories/sqlite_sect_repo.py:69-70 | the first row with the id, found exactly when one exists |
| SectRepo.IndexOfName | core/repositories/sqlite_sect_repo.py:90-91 | a row with the name, found exactly when one exists |
| SectRepo.Contributed | core/repositories/sqlite_sect_repo.py:157-176 | the user's row becomes `(stored or 0) + amount` stamped now, or a new row of the amount; no other row changes |
| SectRepo.UpdatedSects | core/repositories/sqlite_sect_repo.py:132-147 | exactly the rows with the sect's id are rewritten, in place |
| SectRepo.SameKeys | core/repositories/sqlite_sect_repo.py:132-147 | `update_sect` leaves every row's id and name as they were |
| SectRepo.Bumped | core/repositories/sqlite_sect_repo.py:179-183 | exactly the rows with the sect id get the amount added to their total, and a NULL total stays NULL |
| SectRepo.SectRepository.constructor | core/repositories/sqlite_sect_repo.py:12-45 | both tables start empty |
| SectRepo.SectRepository.CreateSect | core/repositories/sqlite_sect_repo.py:47-63 | true exactly when the name is free (a duplicate is an `IntegrityError`, answered with false); the row is then appended under the next id |
| SectRepo.SectRepository.GetById | core/repositories/sqlite_sect_repo.py:65-84 | found exactly when a row has the id, and is that row decoded |
| SectRepo.SectRepository.GetByName | core/repositories/sqlite_sect_repo.py:86-105 | found exactly when a row has the name, active or not, and is that row decoded |
| SectRepo.ActiveSects | core/repositories/sqlite_sect_repo.py:107-126 | the rows stored as active, in table order: a row is listed exactly when its activity is TRUE |
| SectRepo.SectRepository.GetAllSects | core/repositories/sqlite_sect_repo.py:107-126 | `ActiveSects` of the table: the rows whose stored activity is TRUE, each once and in table order, so a NULL activity is left out although it decodes as active |
| SectRepo.SectRepository.UpdateSect | core/repositories/sqlite_sect_repo.py:128-149 | true exactly when a row has the sect's id; the table becomes `UpdatedSects` |
| SectRepo.SectRepository.AddUserContribution | core/repositories/sqlite_sect_repo.py:151-186 | always true; the user's row is `Contributed` and the sect's total `Bumped`; the next contribution id advances exactly when a row is inserted, and the next sect id stays |
| SectRepo.SectRepository.GetUserContribution | core/repositories/sqlite_sect_repo.py:188-207 | found exactly when the `(user_id, sect_id)` row exists, with a NULL contribution read as 0 |
| SectRepo.ContributionsAccumulate | core/repositories/sqlite_sect_repo.py:157-176 | two contributions by the same user to the same sect add up in the user's row |
| SectService.RollCallContribution | core/services/sect_service.py:121-135 | 10 for a realm containing 炼气, else 20 for 筑基, 40 for 结丹, 80 for 元婴, and 10 otherwise; the first name found decides |
| SectService.RollCallStartsBetrayCooldown | core/services/sect_service.py:59-61 | a roll call at one time blocks betrayal for exactly the following four hours |
| SectService.BetrayalUsesUpRollCall | core/services/sect_service.py:73-97 | a betrayal stamps the roll-call time, so rejoining the same day finds the roll call used up |
| SectService.SectService.constructor | core/services/sect_service.py:10-18 | the service holds the two repositories it is given |
| SectService.SectService.GetUserSect | core/services/sect_service.py:109-113 | nothing for a user whose sect id is unset or 0, otherwise the stored sect with that id |
| SectService.SectService.Save | core/services/sect_service.py:39-40 | the user row is `Updated` and then the sect row rewritten; nothing else changes |
| SectService.SectService.JoinSect | core/services/sect_service.py:20-42 | refused with its message for a user already in a sect or an unknown name, with nothing changed; otherwise the user becomes a 弟子 of the sect, whose member count rises by one, and both are saved |
| SectService.SectService.Enrol | core/services/sect_service.py:35-40 | the joining user's new sect id and position, and the saved user and sect rows |
| SectService.SectService.BetraySect | core/services/sect_service.py:44-78 | refused without a sect; a vanished sect is cleared from the user and saved; refused with the remaining minutes and seconds during the four-hour cooldown; otherwise the user leaves, the member count drops by one but not below zero, the cooldown restarts now, and both are saved |
| SectService.SectService.SectRollCall | core/services/sect_service.py:80-107 | refused without a sect, for a vanished sect or when the day's roll call is used; otherwise the realm's contribution is credited to the user's row and the sect's total and the roll-call time is saved; the next contribution id advances exactly when a new contribution row is inserted, and the next sect id stays |
| ItemRepo.RarityOf | core/repositories/sqlite_item_repo.py:66 | `row[4] or 1`: a NULL or zero rarity reads as 1, any other as stored |
| ItemRepo.Decode | core/repositories/sqlite_item_repo.py:61-72 | the decoded item keeps id, name and type and takes the rarity default |
| ItemRepo.Inserted | core/repositories/sqlite_item_repo.py:37-45 | the inserted row has the fresh id and the item's name |
| ItemRepo.FindByName | core/repositories/sqlite_item_repo.py:78-82 | a row is found exactly when one has the name, and has that name |
| ItemRepo.FindById | core/repositories/sqlite_item_repo.py:55-59 | a row is found exactly when one has the id, and has that id |
| ItemRepo.FindAppended | core/repositories/sqlite_item_repo.py:32-95 | a row appended under a free name is the one found by that name |
| ItemRepo.CreateThenGetByName | core/repositories/sqlite_item_repo.py:32-95 | an item created under a free name reads back by name with the written fields |
| ItemRepo.ItemRepository.constructor | core/repositories/sqlite_item_repo.py:12-30 | the table starts empty |
| ItemRepo.ItemRepository.CreateItem | core/repositories/sqlite_item_repo.py:32-49 | true exactly when the name is free (a duplicate is an `IntegrityError`, answered with false); the row is then appended under the next id |
| ItemRepo.ItemRepository.GetById | core/repositories/sqlite_item_repo.py:51-72 | found exactly when a row has the id, and is that row decoded |
| ItemRepo.ItemRepository.GetByName | core/repositories/sqlite_item_repo.py:74-95 | found exactly when a row has the name, and is that row decoded |
| ItemRepo.OfType | core/repositories/sqlite_item_repo.py:97-118 | the decoded rows of a type, in table order: a row is listed exactly when it has that type |
| ItemRepo.ItemRepository.GetItemsByType | core/repositories/sqlite_item_repo.py:97-118 | `OfType` of the table: the decoded rows of that type, each once and in table order |
| ItemRepo.ItemRepository.GetAllItems | core/repositories/sqlite_item_repo.py:120-141 | every row decoded, in table order |
| LogRepo.Decode | core/repositories/sqlite_log_repo.py:71-77 | the decoded entry carries the row's id, user, type, content and time |
| LogRepo.LogRepository.constructor | core/repositories/sqlite_log_repo.py:22-36 | the table starts empty |
| LogRepo.LogRepository.AddLog | core/repositories/sqlite_log_repo.py:38-47 | exactly one entry is appended under the next id, and the result is true |
| LogRepo.LogRepository.Collect | core/repositories/sqlite_log_repo.py:54-67 | the `WHERE` of both queries: exactly the stored entries of the user (of the type, when one is given), or all of them, each entry once |
| LogRepo.LogRepository.GetUserLogs | core/repositories/sqlite_log_repo.py:49-79 | only the user's entries (of the type when it is non-empty), newest first, at most `limit`, none left out newer than one returned, all of them for a negative limit, and exactly `limit` whenever one is left out; each entry appears once; `logType` defaults to None and `limit` to 50 |
| LogRepo.LogRepository.GetRecentLogs | core/repositories/sqlite_log_repo.py:81-101 | any user's entries, newest first, at most `limit`, none left out newer than one returned, all of them for a negative limit, and exactly `limit` whenever one is left out; each entry appears once; `limit` defaults to 10 |
| DataSetup.SeedItemsKeepsRows | core/services/data_setup_service.py:96-100 | seeding items only appends: every earlier row keeps its place and value |
| DataSetup.SeedItemsCoversSeeds | core/services/data_setup_service.py:96-100 | after seeding, every seed item's name is in the table |
| DataSetup.SeedItemsIdle | core/services/data_setup_service.py:96-100 | when every seed name is present, seeding changes nothing |
| DataSetup.SeedItemsIdempotent | core/services/data_setup_service.py:96-100 | seeding items twice is seeding them once |
| DataSetup.SeedSectsKeepsRows | core/services/data_setup_service.py:161-165 | seeding sects only appends: every earlier row keeps its place and value |
| DataSetup.SeedSectsCoversSeeds | core/services/data_setup_service.py:161-165 | after seeding, every seed sect's name is in the table |
| DataSetup.SeedSectsIdle | core/services/data_setup_service.py:161-165 | when every seed name is present, seeding changes nothing |
| DataSetup.SeedSectsIdempotent | core/services/data_setup_service.py:161-165 | seeding sects twice is seeding them once |
| DataSetup.DataSetupService.constructor | core/services/data_setup_service.py:8-10 | the service holds the two repositories it is given |
| DataSetup.DataSetupService.CreateMissingItems | core/services/data_setup_service.py:96-100 | the loop creates exactly the seeds whose name is missing, in order (`SeedItems`) |
| DataSetup.DataSetupService.CreateMissingSects | core/services/data_setup_service.py:161-165 | the loop creates exactly the seeds whose name is missing, in order (`SeedSects`) |
| DataSetup.DataSetupService.SetupInitialData | core/services/data_setup_service.py:12-165 | the six items and then the six sects are seeded; earlier rows are kept and every seed name is then present |
| Migration.SqlFiles | core/database/migration.py:35-38 | exactly the listed names that end in `.sql` and are regular files |
| Migration.InsertName | core/database/migration.py:35 | inserting into a sorted list keeps it sorted and adds exactly the one name |
| Migration.SortNames | core/database/migration.py:35-38 | `sorted`: the result is in order and a permutation of the input |
| Migration.ToApply | core/database/migration.py:41-64 | exactly the files not yet recorded, each once when the files are distinct, none when all are recorded |
| Migration.CleanRunRecordsAll | core/database/migration.py:41-67 | without failures every pending name is recorded, in order, and nothing raises |
| Migration.FailureStopsRun | core/database/migration.py:45-62 | the first failing file raises and no later file is recorded; a failing script keeps every earlier name, a file that cannot be read loses the last, uncommitted one |
| Migration.SqlFilesDistinct | core/database/migration.py:35-38 | a listing of distinct names gives distinct `.sql` names |
| Migration.SortedFilesDistinct | core/database/migration.py:35-38 | sorting keeps the file names distinct |
| Migration.DistinctCountsOnce | core/database/migration.py:20 | a distinct list holds each name at most once, as the UNIQUE name column demands |
| Migration.RerunAppliesNothing | core/database/migration.py:43-56 | after a run without failures, a second run over the same directory has nothing to apply |
| Migration.Migrator.constructor | core/database/migration.py:17-23 | the migrations table starts empty |
| Migration.Migrator.Pending | core/database/migration.py:26-43 | the sorted `.sql` files not yet recorded, each once |
| Migration.Migrator.RunMigrations | core/database/migration.py:7-69 | a missing directory is created and nothing is applied; otherwise the table and the raise are those of `Run` over the pending files |
| Migration.ApplyFiles | core/database/migration.py:41-64 | the loop over the sorted files leaves the table and the raise that `Run` gives |
| Migration.ToApplyStep | core/database/migration.py:43 | the files to apply from position `i` are that file, when unrecorded, followed by those from `i + 1` |
| Migration.RunStep | core/database/migration.py:45-62 | one step of the loop: a read failure keeps only the committed names, a script failure keeps the pending one too, success records the name as pending |
| ConfigManager.LevelRecord | config_manager.py:66 | the record holds the entry's own fields and `index`, the entry's own `index` winning |
| ConfigManager.LastWinsSpec | config_manager.py:71-82 | a key filled in order is present exactly when some pair bears it, holding the value of the last such pair |
| ConfigManager.LastWinsSnoc | config_manager.py:71-75 | filling one more pair in is one dictionary assignment |
| ConfigManager.LevelMapIndexes | config_manager.py:66-67 | `level_map` holds exactly the level names, each with the record of the last entry bearing it, its index counting entries without a name too |
| ConfigManager.MapIndex | config_manager.py:85-87 | the map index maps exactly the map names, each to itself |
| ConfigManager.ItemDataIndexes | config_manager.py:69-77 | `item_data` holds exactly the ids of entries that construct an `Item`, each with the last such entry's item |
| ConfigManager.ItemNamesIndexes | config_manager.py:70-77 | `item_name_to_id` holds exactly the names of entries that construct, each with the id of the last entry bearing the name |
| ConfigManager.NameIndexFindsEntry | config_manager.py:79-82 | a realm or boss name index holds exactly the entries' names; the id it gives leads to an entry bearing the name, the last one that does |
| ConfigManager.ItemNamesFindItem | config_manager.py:71-91 | every indexed item name leads to a loaded item with that id and name |
| ConfigManager.LoadItems | config_manager.py:69-77 | the item loop builds `item_data` and `item_name_to_id` as `ItemData` and `ItemNames` say |
| ConfigManager.IndexedIdStored | config_manager.py:79-82 | every id a name index gives is a key of the indexed object |
| ConfigManager.IndexedIdsStored | config_manager.py:79-82 | every id of a name index is a key of the indexed object |
| ConfigManager.MapLookupAfterLoad | config_manager.py:85-105 | once a `地图` section is loaded, a map is found exactly by its own non-empty name |
| ConfigManager.ConfigManager.constructor | config_manager.py:12-40 | the tables start empty and `_load_all` then builds every index from the loaded files |
| ConfigManager.ConfigManager.LoadAll | config_manager.py:55-87 | every table and index is the one built from the loaded files; the map index is rebuilt only with a `地图` section |
| ConfigManager.ConfigManager.LoadNameIndexes | config_manager.py:59-82 | the realm and boss tables and their name indexes, every indexed id leading into its table |
| ConfigManager.ConfigManager.LoadWorld | config_manager.py:63-87 | the world map and resources are stored; the map index is rebuilt only with a `地图` section |
| ConfigManager.ConfigManager.GetItemByName | config_manager.py:89-91 | found exactly when the name indexes a non-empty id that is loaded, and then that id and item |
| ConfigManager.ConfigManager.GetRealmByName | config_manager.py:93-95 | found exactly when the name indexes a non-empty id, and then that id and realm |
| ConfigManager.ConfigManager.GetBossByName | config_manager.py:97-99 | found exactly when the name indexes a non-empty id, and then that id and boss |
| ConfigManager.ConfigManager.GetMapByName | config_manager.py:101-105 | found exactly when the map index names a map of the `地图` section, and then that map |
| ConfigManager.ConfigManager.GetResourcesByMap | config_manager.py:107-111 | found exactly when the `资源点` section lists the map |
| ConfigManager.ConfigManager.GetResourceByName | config_manager.py:113-118 | `None` when either the map or the resource is absent; otherwise the resource |
| InventoryHandlers.ParseTakePill | handlers/inventory_handlers.py:51-71 | a message not starting with 服用 or with nothing after the command word is refused; without `*` the whole remainder is the name and the quantity 1; with `*` the name is the text before the first `*`, unstripped, and the quantity `int` of the rest, any integer; a non-integer quantity is refused |
| InventoryHandlers.TakePillRoundTrip | handlers/inventory_handlers.py:56-65 | `服用 <name>*<q>` reads back as the name and the quantity |
| InventoryHandlers.TakePillDefaultQuantity | handlers/inventory_handlers.py:69-71 | `服用 <name>` without `*` uses one of the named pill |
| InventoryHandlers.NegativeQuantityMintsItems | handlers/inventory_handlers.py:62-65 | as written, `服用 清灵丹*-5` parses to quantity -5, passes `has_item` on a single pill and leaves six |
| InventoryHandlers.ParseTakePillChecked | handlers/inventory_handlers.py:51-71 | the corrected parser agrees with the one as written except that a quantity below one is refused |
| InventoryHandlers.CheckedUseNeverGrows | handlers/inventory_handlers.py:62-74 | with the corrected parser, a removal shrinks the used stack and leaves every other stack alone |
| InventoryHandlers.TakePill | handlers/inventory_handlers.py:36-75 | without talent or with a refused command nothing changes; otherwise the parsed name and quantity, negative ones included, go to `use_item`: an unknown name, too few held or an unmet requirement gets its refusal with no change, and otherwise the reply, the saved user and the removed items are those the effect decides |
| SectHandlers.ParseJoinSect | handlers/sect_handlers.py:20-28 | the stripped message must start with 拜入宗门; the name is the text from index 5 on, stripped; an empty name is refused |
| SectHandlers.JoinNameTrimmed | handlers/sect_handlers.py:25-28 | the sect name handed on is never empty and has no whitespace at its ends |
| SectHandlers.JoinRoundTrip | handlers/sect_handlers.py:20-28 | `拜入宗门 <name>` reads back as the name |
| SectHandlers.JoinSect | handlers/sect_handlers.py:6-32 | without talent or with a refused command nothing changes; otherwise the reply and effects are the sect service's: a user already in a sect and an unknown sect name are refused with their messages and nothing changes, and a sectless user joins an existing sect as a disciple |
| SectHandlers.ShownContribution | handlers/sect_handlers.py:60-61 | the stored contribution, or 0 without a contribution row |
| SectHandlers.MySect | handlers/sect_handlers.py:35-71 | no talent and no sect id each get their reply before the service is asked; a sect id naming no sect is reported; otherwise the sect info with the shown contribution |
| SectHandlers.MySectWithoutContribution | handlers/sect_handlers.py:60-61 | a member with no contribution row is shown a contribution of 0 |
| SectHandlers.SectInfoShowsContribution | handlers/sect_handlers.py:64-69 | the info text carries the contribution line |
| SectHandlers.BetraySect | handlers/sect_handlers.py:74-89 | without talent nothing changes; otherwise the reply and the effects are the service's: a sectless user is refused, a vanished sect clears the user's sect, a cooldown reports the minutes and seconds left, and a betrayal saves the user without sect, stamped now, and the sect one member smaller |
| SectHandlers.SectRollCall | handlers/sect_handlers.py:92-112 | without talent or sect id the handler replies itself and nothing changes; otherwise the reply and effects are the service's: a vanished sect and a roll call already made today are refused with their messages and nothing changes, and a first roll call of the day records the contribution on the user, the contribution row and the sect; the service's own no-sect reply never appears |
| MapHandler.MoveOutcomeOf | handlers/map_handler.py:59-93 | a move happens exactly with a non-empty target, a known current map, a known target and the target among the current map's neighbours; it changes only the map; each refusal has its reply |
| MapHandler.MoveLandsOnKnownMap | handlers/map_handler.py:67-91 | a move always lands on a map of the world map |
| MapHandler.MoveAlongList | handlers/map_handler.py:84-86 | with a list of neighbours, a move succeeds exactly to a listed, known map |
| MapHandler.LastFour | handlers/map_handler.py:33 | `user_id[-4:]`: the last four characters, or all of a shorter id |
| MapHandler.Others | handlers/map_handler.py:31-33 | exactly the listed players other than the requester, none more often than listed |
| MapHandler.Labels | handlers/map_handler.py:33 | one label per player, in order |
| MapHandler.OthersIdempotent | handlers/map_handler.py:31-33 | leaving out the requester a second time changes nothing |
| MapHandler.MapHandler.constructor | handlers/map_handler.py:14-16 | the handler holds the data manager and configuration it is given |
| MapHandler.MapHandler.HandleMove | handlers/map_handler.py:59-93 | the reply is `MoveOutcomeOf`'s; a refusal changes nothing; a move rewrites only the player's map |
| MapHandler.MapHandler.HandleMapView | handlers/map_handler.py:19-57 | refused for a map the world map lacks; otherwise exactly the stored players on the map other than the requester, each once, with their labels |
| CreationHandler.AvatarData | handlers/creation_handler.py:89-106 | the avatar data is never empty |
| CreationHandler.AvatarSources | handlers/creation_handler.py:89-106 | `base64://` exactly when the base64 conversion gives data; `file://` exactly when it raised and the path conversion gives a path; otherwise `custom_avatar` |
| CreationHandler.CreationHandler.constructor | handlers/creation_handler.py:15-19 | the handler holds the data manager it is given |
| CreationHandler.CreationHandler.HandleNewPlayerStory | handlers/creation_handler.py:21-41 | an existing player is refused and nothing changes; anyone else is left awaiting a name |
| CreationHandler.CreationHandler.HandlePlayerNameInput | handlers/creation_handler.py:43-66 | silent unless awaiting a name; a name outside 1-10 characters is refused and nothing saved; a valid one is stored under `name` and the user then awaits an avatar |
| CreationHandler.CreationHandler.HandlePlayerAvatarInput | handlers/creation_handler.py:68-132 | silent unless awaiting an avatar; no image changes nothing; with one the avatar data is stored, the player created on 青云镇 with it, and the state row deleted while the creation data stays |
| Plugin.Whitelist | main.py:47 | every configured entry, an integer or a string, converted to its string, in order |
| Plugin.CheckAccess | main.py:51-73 | everything passes with an empty whitelist and so does a message without a group; otherwise a group passes exactly when listed |
| Plugin.NumberedGroupAdmitted | main.py:47-73 | a group configured by number is admitted under its decimal id |
| Plugin.RefusedOnlyByWhitelist | main.py:51-73 | a message is refused exactly when a whitelist is configured, the message has a group, and no entry converts to it |
| Plugin.RouteMessage | main.py:355-381 | a denied message goes nowhere; awaiting a name, the stripped text is the name unless it starts with `/` or is 我要修仙; awaiting an avatar, only a message with an image goes on |
| Plugin.RoutedNameIsTrimmed | main.py:365-371 | a routed name has no whitespace at its ends, is not a command, and is non-empty when the text has a non-space character |
| Plugin.XiuXianPlugin.constructor | main.py:43-47 | the plugin holds the data manager, the creation handler and the converted whitelist |
| Plugin.XiuXianPlugin.HandleMessage | main.py:355-381 | an ignored message changes nothing; a routed name gets the name step's reply and effects; a routed avatar stores the avatar data and creates the player on 青云镇 with the state row removed, or raises for an existing player |
| Text.Drop | handlers/inventory_handlers.py:56 | `s[n:]`: the characters after the first `n`, none when `s` is shorter |
| Text.Strip | handlers/inventory_handlers.py:51-56 | `str.strip()`: the slice of the input left after removing only whitespace at both ends, with no whitespace at its own ends, empty exactly for an all-whitespace input |
| Text.StripUnspaced | handlers/sect_handlers.py:20-25 | a string without whitespace at its ends is its own `strip()` |
| Text.IndexOf | handlers/inventory_handlers.py:62-63 | the position of the first occurrence, found exactly when the character occurs |
| Text.ParseInt | handlers/inventory_handlers.py:65 | `int()` accepts only a non-empty stripped text of digits and underscores with at most a leading sign, accepts every text of ASCII digits, and reads a text of digits without a leading zero as the number whose `str()` it is |
| Text.IntToString | handlers/sect_handlers.py:67-68 | `str(n)` is non-empty and starts with `-` exactly for a negative number |
| Text.CanonicalDigits | handlers/inventory_handlers.py:65 | digits without a leading zero parse to the number whose decimal form they are |
| Text.ParseIntOfIntToString | handlers/inventory_handlers.py:65 | `int(str(n)) == n` |
| Ordering.SortDesc | data/data_manager.py:77-81 | `ORDER BY … DESC`: the rows in non-increasing key order, a permutation of the input |
| Ordering.Limit | core/repositories/sqlite_log_repo.py:55-67 | `LIMIT n`: at most `n` leading rows, all of them for a negative `n` |
| Ordering.LimitKeepsLargest | core/repositories/sqlite_user_repo.py:158-163 | limiting a sorted list keeps it sorted and drops no row above one it keeps |
| Ordering.DistinctBySub | core/repositories/sqlite_user_repo.py:158-163 | rows drawn from distinct rows, none more often than they occur, stay distinct, so a limited query returns each row once |
| Ordering.TopBy | core/repositories/sqlite_user_repo.py:158-163 | `ORDER BY … DESC LIMIT n`: sorted, drawn from the rows, of the limited length, and no row left out ranks above one kept |
| Clock.DaySeconds | core/services/cultivation_service.py:31 | `timedelta.seconds`: the part of a duration within one day, always in `0..86399` |

## Left out

- async/await, the aiosqlite and sqlite3 connections, PRAGMA and WAL settings, and the `CREATE TABLE` bodies are plumbing; every table is an in-memory map or sequence.
- Concurrency is left out. Every call runs alone, as the plugin handles one command at a time.
- JSON file reading in `config_manager.py` is an input: the parsed values arrive as `Value`/`Info`. A missing or unreadable file is the empty object.
- `ConfigManager.NameOf`: a `name` or `level_name` field that is not a string is treated as absent. Python would index by whatever value it holds.
- `MapHandler.Adjacent`: a `相邻区域` value that is neither a list nor a string counts as not adjacent. Python would raise or test membership differently.
- The float reward formulas `_calculate_exp_gain`, `_calculate_deep_exp_gain` and the `force_exit_cultivation` ratio are inputs (`gain`), and so is the `random.random()` outcome of a closing (`ClosingOutcome`). `force_exit_cultivation` itself is left out, since its result is only that float formula applied to the fields `CheckDeep` already models.
- `Plugin.Whitelist`: only integer and string whitelist entries are modelled. `str()` of any other configured value, such as a float or a boolean, is not.
- `Text.ParseInt`: only ASCII digits are read. Python's `int()` also accepts every other Unicode decimal digit, such as the fullwidth `５` an input method produces. The model refuses those with "数量必须是数字".
- `InventoryService.EffectOf`: a gain pill's `int(effect_value * 100 * quantity)` is modelled as `effectHundredths * quantity`. That is exact when `effect_value * 100` is exact in binary floating point, as it is for the seeded 0.5. Python truncates an inexact product that falls just below a whole hundredth (`int(0.29 * 100)` is 28), and the model does not capture that.
- `random.randint` and `random.choice` in `detect_talent` are the `draw`, `pick`, `prefixPick` and `suffixPick` inputs.
- The calendar-day test of the sect roll call is an input function `day(t)`.
- Image conversion in the avatar step is an input: each conversion raises or returns a string (`Conversion`).
- `generate_new_player_stats` is the `stats` input, and `Player.get_level` is the `level` input. The module that defines `Player` is not part of this model. `DataManager.Player` holds the columns `data/data_manager.py` reads and writes.
- The `player_required` decorator and the handlers' `get_or_create_user` call are left out. Each handler takes the player or user it would have found.
- The reply text of `handle_map_view` beyond the player list, and all of `handle_world_map`, are presentation and are left out.
- `on_message`, the notification loop of `main.py` and the command registrations are glue. The loop calls a `check_and_complete_resource_collections` that is not part of this model.
- `handlers/cultivation_handlers.py` (timer tasks), `handlers/arena_handlers.py`, `handlers/misc_handler.py` and `core/services/arena_service.py` (random, floating-point combat) are left out.
- Migration scripts are not modelled. Only whether reading one or running it raises is an input (`unreadable`, `broken`).
- `get_sect_members` of the sect service always returns an empty list and is left out.
- These `data/data_manager.py` operations are outside the modelled core and are left out:
  - `get_all_players`, `get_active_bosses` and `get_top_players`;
  - `create_sect`, `delete_sect`, `get_sect_by_name`, `get_sect_by_id`, `get_sect_members` and `update_player_sect`;
  - `get_inventory_by_user_id`, `get_player_avatar` and `get_map_resources`.
  They are plain reads or single-row writes that the modelled operations do not depend on.

## Findings

The operations model the code as written. Each corrected member states the evidently intended behaviour beside them and proves it.

| source | as written | input that shows it | evidently intended | confidence | as-written member | corrected member |
|---|---|---|---|---|---|---|
| core/services/user_service.py:72-78 | the double-root bucket chooses from `talent_types[5:14]`, the triple-root bucket from `talent_types[14:19]` and the quadruple-root bucket from `talent_types[19:24]`, though the list holds 13 double and 9 triple roots | a draw of 61-80 with the first choice yields 土木, a double root; every draw of 81-95 yields a triple root | each bucket chooses among all talents with the number of roots its comment names: the slices `[5:18]`, `[18:27]` and `[27:32]` | high; not executed | `UserService.TalentAsWritten`, `UserService.AsWrittenDiffersFromCorrected`, `UserService.TripleRootBucketAsWrittenYieldsDoubleRoot`, `UserService.QuadrupleRootBucketAsWrittenHoldsNoQuadrupleRoot` | `UserService.TalentFor`, `UserService.PoolsMatchRootCounts`, `UserService.TalentHasBucketRootCount` |
| handlers/inventory_handlers.py:62-65 | the quantity after `*` is any integer, and `remove_item` then subtracts it | holding one 清灵丹, `服用 清灵丹*-5` passes `has_item` and leaves six | quantities below one are refused before the item is used | high; not executed | `InventoryHandlers.ParseTakePill`, `InventoryHandlers.NegativeQuantityMintsItems`, `InventoryHandlers.TakePill` | `InventoryHandlers.ParseTakePillChecked`, `InventoryHandlers.CheckedUseNeverGrows` |
