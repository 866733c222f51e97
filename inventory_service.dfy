/**
 * Item use (`core/services/inventory_service.py`): an item is looked up by name, the
 * holding and the item's requirement are checked, its effect is applied to the user, and
 * only a successful effect consumes the items.
 */
module InventoryService {
  import opened Wrappers
  import opened Models
  import opened Text
  import opened UserRepo
  import opened ItemRepo
  import opened InventoryRepo

  /** The realm the foundation pill requires and the one it leads to. */
  const PeakQiRealm: string := "炼气大圆满"
  const FoundationRealm: string := "筑基初期"

  /** `_check_requirement`: only the 炼气大圆满 requirement is checked, against the exact realm. */
  function CheckRequirement(user: User, requirement: string): (b: bool)
    ensures requirement == PeakQiRealm ==> (b <==> user.realm == PeakQiRealm)
    ensures requirement != PeakQiRealm ==> b
  {
    !(requirement == PeakQiRealm && user.realm != PeakQiRealm)
  }

  /**
   * What `_apply_item_effect` does: refuse with a message, succeed with a message and the
   * user it leaves (saved when `save`), or raise (a gain pill without an effect value).
   */
  datatype Effect = Refused(message: string) | Applied(message: string, user: User, save: bool) | Raises

  /** The effect of `quantity` of `item` on `user`, branch by branch as `_apply_item_effect` decides. */
  function EffectOf(user: User, item: Item, quantity: int): (e: Effect)
    ensures e.Applied? ==> item.itemType == "丹药"
    ensures item.itemType == "丹药" && item.effectType == Some("突破") && item.name == "筑基丹" ==>
              (user.realm == PeakQiRealm ==> e == Applied("服用筑基丹成功，境界提升至" + FoundationRealm,
                                                          user.(realm := FoundationRealm), true))
              && (user.realm != PeakQiRealm ==> e == Refused("当前境界无法服用筑基丹"))
    ensures item.itemType == "丹药" && item.effectType == Some("突破") && item.name != "筑基丹" ==>
              e == Refused("未知的物品效果类型: " + Show(item.effectType))
    ensures item.itemType == "丹药" && item.effectType == Some("增益") ==>
              (item.effectHundredths.None? <==> e.Raises?)
              && (e.Applied? ==> e.save
                                 && e.user.cultivation - user.cultivation == e.user.totalExpGained - user.totalExpGained
                                                                          == item.effectHundredths.value * quantity
                                 && e.user == user.(cultivation := e.user.cultivation, totalExpGained := e.user.totalExpGained))
    ensures item.itemType == "丹药" && item.effectType == Some("增益") && item.effectHundredths.Some? ==>
              var gain := item.effectHundredths.value * quantity;
              e == Applied("服用" + item.name + "，获得 " + IntToString(gain) + " 点修为",
                           user.(cultivation := user.cultivation + gain, totalExpGained := user.totalExpGained + gain), true)
    ensures item.itemType == "丹药" && item.effectType == Some("清理") ==> e == Applied("服用" + item.name + "，清理了丹毒", user, false)
    ensures item.itemType == "材料" ==> e == Refused(item.name + "是材料，无法直接使用")
    ensures item.itemType != "丹药" && item.itemType != "材料" ==> e == Refused("未知的物品效果类型: " + Show(item.effectType))
    ensures item.itemType == "丹药" && (item.effectType.None? || item.effectType.value !in {"突破", "增益", "清理"}) ==>
              e == Refused("未知的物品效果类型: " + Show(item.effectType))
  {
    var unknown := Refused("未知的物品效果类型: " + Show(item.effectType));
    if item.itemType == "丹药" then
      if item.effectType == Some("突破") then
        if item.name == "筑基丹" then
          if user.realm == PeakQiRealm then
            Applied("服用筑基丹成功，境界提升至" + FoundationRealm, user.(realm := FoundationRealm), true)
          else Refused("当前境界无法服用筑基丹")
        else unknown
      else if item.effectType == Some("增益") then
        if item.effectHundredths.None? then Raises
        else
          var gain := item.effectHundredths.value * quantity;
          Applied("服用" + item.name + "，获得 " + IntToString(gain) + " 点修为",
                  user.(cultivation := user.cultivation + gain, totalExpGained := user.totalExpGained + gain), true)
      else if item.effectType == Some("清理") then
        Applied("服用" + item.name + "，清理了丹毒", user, false)
      else unknown
    else if item.itemType == "材料" then Refused(item.name + "是材料，无法直接使用")
    else unknown
  }

  class InventoryService {
    const inventory: InventoryRepository
    const users: UserRepository
    const items: ItemRepository

    constructor (inventory: InventoryRepository, users: UserRepository, items: ItemRepository)
      ensures this.inventory == inventory && this.users == users && this.items == items
    {
      this.inventory := inventory;
      this.users := users;
      this.items := items;
    }

    /** `_apply_item_effect`: updates the user where `EffectOf` says so, and saves it. */
    method ApplyItemEffect(user: User, item: Item, quantity: int) returns (raised: bool, ok: bool, message: string, u: User)
      requires users.Valid()
      modifies users`rows
      ensures users.Valid()
      ensures var e := EffectOf(user, item, quantity);
              && (raised <==> e.Raises?)
              && (e.Raises? ==> !ok && u == user)
              && (e.Refused? ==> !ok && message == e.message && u == user)
              && (e.Applied? ==> ok && message == e.message && u == e.user)
              && users.rows == if e.Applied? && e.save then Updated(old(users.rows), u) else old(users.rows)
    {
      u := user;
      raised := false;
      if item.itemType == "丹药" {
        if item.effectType == Some("突破") {
          if item.name == "筑基丹" {
            if u.realm == PeakQiRealm {
              u := u.(realm := FoundationRealm);
              var _ := users.UpdateUser(u);
              return false, true, "服用筑基丹成功，境界提升至" + u.realm, u;
            } else {
              return false, false, "当前境界无法服用筑基丹", u;
            }
          }
        } else if item.effectType == Some("增益") {
          if item.effectHundredths.None? {
            return true, false, "", u;
          }
          var gain := item.effectHundredths.value * quantity;
          u := u.(cultivation := u.cultivation + gain);
          u := u.(totalExpGained := u.totalExpGained + gain);
          var _ := users.UpdateUser(u);
          return false, true, "服用" + item.name + "，获得 " + IntToString(gain) + " 点修为", u;
        } else if item.effectType == Some("清理") {
          return false, true, "服用" + item.name + "，清理了丹毒", u;
        }
      } else if item.itemType == "材料" {
        return false, false, item.name + "是材料，无法直接使用", u;
      }
      ok, message := false, "未知的物品效果类型: " + Show(item.effectType);
    }

    /**
     * `get_user_inventory`: the user's inventory rows, each paired with its item template;
     * a row whose template is missing is left out.
     */
    method GetUserInventory(userId: string) returns (r: seq<(Item, UserItem)>)
      ensures forall p :: p in r <==>
                && p.1.userId == userId && (userId, p.1.itemId) in inventory.rows
                && p.1 == InventoryRepo.Decode((userId, p.1.itemId), inventory.rows[(userId, p.1.itemId)])
                && items.GetById(p.1.itemId) == Some(p.0)
      ensures forall i, j :: 0 <= i < j < |r| ==> r[i].1.itemId != r[j].1.itemId
    {
      var owned := inventory.GetUserItems(userId);
      r := [];
      for k := 0 to |owned|
        invariant forall p :: p in r <==> exists j :: 0 <= j < k && p.1 == owned[j] && items.GetById(owned[j].itemId) == Some(p.0)
        invariant forall i, j :: 0 <= i < j < |r| ==> r[i].1.itemId != r[j].1.itemId
      {
        var item := items.GetById(owned[k].itemId);
        if item.Some? {
          assert forall p :: p in r ==> p.1.itemId != owned[k].itemId by {
            forall p | p in r ensures p.1.itemId != owned[k].itemId {
              var j :| 0 <= j < k && p.1 == owned[j] && items.GetById(owned[j].itemId) == Some(p.0);
              assert owned[j].itemId != owned[k].itemId;
            }
          }
          r := r + [(item.value, owned[k])];
        }
      }
    }

    /** `add_item_to_user`: hands the quantity to the inventory's `add_item`. */
    method AddItemToUser(userId: string, itemId: int, quantity: int, now: int) returns (ok: bool)
      requires inventory.Valid()
      modifies inventory
      ensures inventory.Valid()
      ensures ok && inventory.rows == Added(old(inventory.rows), userId, itemId, quantity, old(inventory.nextId), now)
    {
      ok := inventory.AddItem(userId, itemId, quantity, now);
    }

    /** `remove_item_from_user`: hands the quantity to the inventory's `remove_item`. */
    method RemoveItemFromUser(userId: string, itemId: int, quantity: int) returns (ok: bool)
      modifies inventory`rows
      ensures ok <==> Has(old(inventory.rows), userId, itemId, quantity)
      ensures inventory.rows == if ok then Removed(old(inventory.rows), userId, itemId, quantity).value else old(inventory.rows)
    {
      ok := inventory.RemoveItem(userId, itemId, quantity);
    }

    /**
     * `use_item`: an unknown name, too few held, or an unmet requirement refuses before any
     * effect, changing nothing; otherwise the effect is applied and the items are removed
     * exactly when it succeeds.
     */
    method UseItem(user: User, itemName: string, quantity: int) returns (raised: bool, ok: bool, message: string, u: User)
      requires users.Valid()
      modifies users`rows, inventory`rows
      ensures users.Valid()
      ensures items.GetByName(itemName).None? ==>
                !raised && !ok && message == "未找到物品: " + itemName && u == user
                && users.rows == old(users.rows) && inventory.rows == old(inventory.rows)
      ensures items.GetByName(itemName).Some? && !Has(old(inventory.rows), user.userId, items.GetByName(itemName).value.id, quantity) ==>
                !raised && !ok && message == "你没有足够的 " + itemName && u == user
                && users.rows == old(users.rows) && inventory.rows == old(inventory.rows)
      ensures var found := items.GetByName(itemName);
              found.Some? && Has(old(inventory.rows), user.userId, found.value.id, quantity)
              && Truthy(found.value.requirement) && !CheckRequirement(user, found.value.requirement.value) ==>
                !raised && !ok && message == "不满足使用条件: " + found.value.requirement.value && u == user
                && users.rows == old(users.rows) && inventory.rows == old(inventory.rows)
      ensures var found := items.GetByName(itemName);
              found.Some? && Has(old(inventory.rows), user.userId, found.value.id, quantity)
              && !(Truthy(found.value.requirement) && !CheckRequirement(user, found.value.requirement.value)) ==>
                var e := EffectOf(user, found.value, quantity);
                && (raised <==> e.Raises?)
                && (ok <==> e.Applied?)
                && (e.Raises? ==> u == user)
                && (e.Refused? ==> message == e.message && u == user)
                && (e.Applied? ==> message == e.message && u == e.user)
                && users.rows == (if e.Applied? && e.save then Updated(old(users.rows), u) else old(users.rows))
                && inventory.rows == if ok then Removed(old(inventory.rows), user.userId, found.value.id, quantity).value
                                     else old(inventory.rows)
    {
      var item := items.GetByName(itemName);
      if item.None? {
        return false, false, "未找到物品: " + itemName, user;
      }
      if !inventory.HasItem(user.userId, item.value.id, quantity) {
        return false, false, "你没有足够的 " + itemName, user;
      }
      var requirement := item.value.requirement;
      if Truthy(requirement) && !CheckRequirement(user, requirement.value) {
        return false, false, "不满足使用条件: " + requirement.value, user;
      }
      raised, ok, message, u := ApplyItemEffect(user, item.value, quantity);
      if raised {
        return;
      }
      if ok {
        var _ := inventory.RemoveItem(user.userId, item.value.id, quantity);
      }
    }
  }
}
