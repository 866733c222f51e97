/**
 * The entities of `core/domain/models.py`. Timestamps are whole seconds; a nullable column
 * or attribute is an `Option`. Floating-point amounts (cultivation, contribution) are
 * integers, and an item's `effect_value` is kept in hundredths.
 */
module Models {
  import opened Wrappers

  /** A cultivator. */
  datatype User = User(
    id: int,
    userId: string,
    nickname: Option<string>,
    createdAt: Option<int>,
    lastLoginAt: Option<int>,
    cultivation: int,
    realm: string,
    talent: Option<string>,
    daoName: Option<string>,
    sectId: Option<int>,
    sectPosition: Option<string>,
    avatar: Option<string>,
    isHermit: bool,
    isInClosing: bool,
    closingStartTime: Option<int>,
    closingDuration: Option<int>,
    deepClosingEndTime: Option<int>,
    lastClosingTime: Option<int>,
    lastBattleTime: Option<int>,
    lastSectRollCallTime: Option<int>,
    totalClosingCount: int,
    totalBattleCount: int,
    totalBattleWinCount: int,
    totalExpGained: int)

  /** An item template. */
  datatype Item = Item(
    id: int,
    name: string,
    itemType: string,
    description: Option<string>,
    rarity: int,
    effect: Option<string>,
    effectType: Option<string>,
    effectHundredths: Option<int>,
    requirement: Option<string>,
    createdAt: Option<int>)

  /** How many of an item template a user holds. */
  datatype UserItem = UserItem(id: int, userId: string, itemId: int, quantity: int, obtainedAt: Option<int>)

  datatype Sect = Sect(
    id: int,
    name: string,
    description: Option<string>,
    founderId: Option<string>,
    createdAt: Option<int>,
    memberCount: int,
    contribution: int,
    isActive: bool)

  /** A user's accumulated contribution to one sect. */
  datatype UserSectContribution = UserSectContribution(
    id: int, userId: string, sectId: int, contribution: int, lastContributionAt: Option<int>)

  /** One entry of a user's activity log. */
  datatype Log = Log(id: int, userId: string, logType: string, content: string, createdAt: Option<int>)

  /** Python truthiness of an optional string: present and non-empty. */
  predicate Truthy(s: Option<string>) {
    s.Some? && s.value != ""
  }

  /** Python truthiness of an optional integer: present and non-zero. */
  predicate TruthyInt(n: Option<int>) {
    n.Some? && n.value != 0
  }
}
