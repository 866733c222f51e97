/**
 * Joining, leaving and the daily roll call of a sect (`core/services/sect_service.py`).
 * Betrayal and the roll call share one timestamp, `last_sect_roll_call_time`: a roll call
 * starts the four-hour betrayal cooldown, and a betrayal uses up the day's roll call.
 */
module SectService {
  import opened Wrappers
  import opened Models
  import opened Text
  import opened UserRepo
  import opened SectRepo
  import opened Clock

  /** `timedelta(hours=4)` in seconds. */
  const BetrayCooldown: int := 14400

  /** The position a new member takes. */
  const Disciple: string := "弟子"

  /** `_calculate_roll_call_contribution`: 10 doubled per major realm, the first realm name found deciding. */
  function RollCallContribution(realm: string): (c: int)
    ensures c in {10, 20, 40, 80}
    ensures Contains(realm, "炼气") ==> c == 10
    ensures !Contains(realm, "炼气") && Contains(realm, "筑基") ==> c == 20
    ensures !Contains(realm, "炼气") && !Contains(realm, "筑基") && Contains(realm, "结丹") ==> c == 40
    ensures !Contains(realm, "炼气") && !Contains(realm, "筑基") && !Contains(realm, "结丹") && Contains(realm, "元婴") ==> c == 80
    ensures !Contains(realm, "炼气") && !Contains(realm, "筑基") && !Contains(realm, "结丹") && !Contains(realm, "元婴") ==> c == 10
  {
    if ContainsFrom(realm, "炼气") then 10
    else if ContainsFrom(realm, "筑基") then 20
    else if ContainsFrom(realm, "结丹") then 40
    else if ContainsFrom(realm, "元婴") then 80
    else 10
  }

  /** The betrayal cooldown is running at `now`. */
  predicate BetrayCoolingDown(user: User, now: int) {
    user.lastSectRollCallTime.Some? && now < user.lastSectRollCallTime.value + BetrayCooldown
  }

  /** The day's roll call is used up, `day` naming the calendar day of a timestamp. */
  predicate CalledToday(user: User, now: int, day: int -> int) {
    user.lastSectRollCallTime.Some? && day(now) == day(user.lastSectRollCallTime.value)
  }

  /** A roll call at `now` blocks betrayal for the next four hours, and only for them. */
  lemma RollCallStartsBetrayCooldown(user: User, now: int, later: int)
    requires now <= later
    ensures BetrayCoolingDown(user.(lastSectRollCallTime := Some(now)), later) <==> later < now + BetrayCooldown
  {
  }

  /** A betrayal at `now` uses up that day's roll call, should the user join again the same day. */
  lemma BetrayalUsesUpRollCall(user: User, now: int, later: int, sectId: int, day: int -> int)
    requires day(later) == day(now)
    ensures CalledToday(user.(lastSectRollCallTime := Some(now), sectId := Some(sectId), sectPosition := Some(Disciple)),
                        later, day)
  {
  }

  /** The sect table after `s` gains a member. */
  function JoinedSects(rows: seq<SectRow>, s: Sect): seq<SectRow> {
    UpdatedSects(rows, s.(memberCount := s.memberCount + 1))
  }

  /** The sect table after `s` loses a member, its count not going below zero. */
  function LeftSects(rows: seq<SectRow>, s: Sect): seq<SectRow> {
    UpdatedSects(rows, s.(memberCount := if s.memberCount >= 1 then s.memberCount - 1 else 0))
  }

  /** `f"{c}"` of the float contribution: a whole number prints with `.0`. */
  function ShowContribution(c: int): string {
    IntToString(c) + ".0"
  }

  class SectService {
    const users: UserRepository
    const sects: SectRepository

    constructor (users: UserRepository, sects: SectRepository)
      ensures this.users == users && this.sects == sects
    {
      this.users := users;
      this.sects := sects;
    }

    /** `get_user_sect`: the sect of a user whose sect id is set and stored. */
    function GetUserSect(user: User): (r: Option<Sect>)
      reads sects
      ensures !TruthyInt(user.sectId) ==> r.None?
      ensures TruthyInt(user.sectId) ==> r == sects.GetById(user.sectId.value)
    {
      if !TruthyInt(user.sectId) then None else sects.GetById(user.sectId.value)
    }

    /** `update_user(u)` then `update_sect(s)`. */
    method Save(u: User, s: Sect)
      requires users.Valid() && sects.Valid()
      modifies users`rows, sects`sects
      ensures users.Valid() && sects.Valid()
      ensures users.rows == Updated(old(users.rows), u) && sects.sects == UpdatedSects(old(sects.sects), s)
    {
      var _ := users.UpdateUser(u);
      var _ := sects.UpdateSect(s);
    }

    /**
     * `join_sect`: refused for a user already in a sect or for an unknown sect name;
     * otherwise the user becomes a disciple of the sect, whose member count rises by one,
     * and both are saved.
     */
    method JoinSect(user: User, sectName: string) returns (ok: bool, message: string, u: User)
      requires users.Valid() && sects.Valid()
      modifies users`rows, sects`sects
      ensures users.Valid() && sects.Valid()
      ensures TruthyInt(user.sectId) ==>
                !ok && message == "你已经有宗门了，无法再加入其他宗门" && u == user
                && users.rows == old(users.rows) && sects.sects == old(sects.sects)
      ensures !TruthyInt(user.sectId) && old(sects.GetByName(sectName)).None? ==>
                !ok && message == "未找到宗门: " + sectName && u == user
                && users.rows == old(users.rows) && sects.sects == old(sects.sects)
      ensures !TruthyInt(user.sectId) && old(sects.GetByName(sectName)).Some? ==>
                var s := old(sects.GetByName(sectName)).value;
                && ok && message == "成功加入宗门 " + s.name
                && u == user.(sectId := Some(s.id), sectPosition := Some(Disciple))
                && users.rows == Updated(old(users.rows), u)
                && sects.sects == JoinedSects(old(sects.sects), s)
    {
      if TruthyInt(user.sectId) {
        return false, "你已经有宗门了，无法再加入其他宗门", user;
      }
      var found := sects.GetByName(sectName);
      if found.None? {
        return false, "未找到宗门: " + sectName, user;
      }
      u := Enrol(user, found.value);
      ok, message := true, "成功加入宗门 " + found.value.name;
    }

    /** The success path of `join_sect`: the user becomes a disciple of `s`, which gains a member. */
    method Enrol(user: User, s: Sect) returns (u: User)
      requires users.Valid() && sects.Valid()
      modifies users`rows, sects`sects
      ensures users.Valid() && sects.Valid()
      ensures u == user.(sectId := Some(s.id), sectPosition := Some(Disciple))
      ensures users.rows == Updated(old(users.rows), u) && sects.sects == JoinedSects(old(sects.sects), s)
    {
      u := user.(sectId := Some(s.id));
      u := u.(sectPosition := Some(Disciple));
      Save(u, s.(memberCount := s.memberCount + 1));
    }

    /**
     * `betray_sect`: refused without a sect; a sect that no longer exists is cleared from
     * the user; refused during the cooldown; otherwise the user leaves, the member count
     * drops by one but not below zero, and the cooldown restarts now.
     */
    method BetraySect(user: User, now: int) returns (ok: bool, message: string, u: User)
      requires users.Valid() && sects.Valid()
      modifies users`rows, sects`sects
      ensures users.Valid() && sects.Valid()
      ensures !TruthyInt(user.sectId) ==>
                !ok && message == "你没有宗门，无法叛出" && u == user
                && users.rows == old(users.rows) && sects.sects == old(sects.sects)
      ensures TruthyInt(user.sectId) && old(sects.GetById(user.sectId.value)).None? ==>
                !ok && message == "宗门不存在" && u == user.(sectId := None, sectPosition := None)
                && users.rows == Updated(old(users.rows), u) && sects.sects == old(sects.sects)
      ensures TruthyInt(user.sectId) && old(sects.GetById(user.sectId.value)).Some? && BetrayCoolingDown(user, now) ==>
                var left := DaySeconds(user.lastSectRollCallTime.value + BetrayCooldown - now);
                && !ok && u == user && users.rows == old(users.rows) && sects.sects == old(sects.sects)
                && message == "叛门冷却中，还需等待 " + IntToString(left / 60) + " 分 " + IntToString(left % 60) + " 秒"
      ensures TruthyInt(user.sectId) && old(sects.GetById(user.sectId.value)).Some? && !BetrayCoolingDown(user, now) ==>
                var s := old(sects.GetById(user.sectId.value)).value;
                && ok && message == "成功叛出宗门 " + s.name + "，进入4小时叛门冷却期"
                && u == user.(sectId := None, sectPosition := None, lastSectRollCallTime := Some(now))
                && users.rows == Updated(old(users.rows), u)
                && sects.sects == LeftSects(old(sects.sects), s)
    {
      if !TruthyInt(user.sectId) {
        return false, "你没有宗门，无法叛出", user;
      }
      var found := sects.GetById(user.sectId.value);
      if found.None? {
        u := user.(sectId := None);
        u := u.(sectPosition := None);
        var _ := users.UpdateUser(u);
        return false, "宗门不存在", u;
      }
      if BetrayCoolingDown(user, now) {
        var remaining := DaySeconds(user.lastSectRollCallTime.value + BetrayCooldown - now);
        return false, "叛门冷却中，还需等待 " + IntToString(remaining / 60) + " 分 " + IntToString(remaining % 60) + " 秒", user;
      }
      var s := found.value;
      u := user.(sectId := None, sectPosition := None, lastSectRollCallTime := Some(now));
      Save(u, s.(memberCount := Max(0, s.memberCount - 1)));
      ok, message := true, "成功叛出宗门 " + s.name + "，进入4小时叛门冷却期";
    }

    /**
     * `sect_roll_call`: refused without a sect, for a sect that no longer exists, or once
     * the day's roll call is used up; otherwise the realm's contribution is credited to the
     * user and the sect, and the roll call time is saved.
     */
    method SectRollCall(user: User, now: int, day: int -> int) returns (ok: bool, message: string, u: User)
      requires users.Valid() && sects.Valid()
      modifies users`rows, sects
      ensures users.Valid() && sects.Valid()
      ensures sects.nextSectId == old(sects.nextSectId)
      ensures !(TruthyInt(user.sectId) && old(sects.GetById(user.sectId.value)).Some? && !CalledToday(user, now, day)) ==>
                sects.nextContributionId == old(sects.nextContributionId)
      ensures TruthyInt(user.sectId) && old(sects.GetById(user.sectId.value)).Some? && !CalledToday(user, now, day) ==>
                sects.nextContributionId ==
                  if (user.userId, old(sects.GetById(user.sectId.value)).value.id) in old(sects.contributions)
                  then old(sects.nextContributionId) else old(sects.nextContributionId) + 1
      ensures !TruthyInt(user.sectId) ==>
                !ok && message == "你没有宗门，无法点卯" && u == user && users.rows == old(users.rows)
                && sects.sects == old(sects.sects) && sects.contributions == old(sects.contributions)
      ensures TruthyInt(user.sectId) && old(sects.GetById(user.sectId.value)).None? ==>
                !ok && message == "宗门不存在" && u == user && users.rows == old(users.rows)
                && sects.sects == old(sects.sects) && sects.contributions == old(sects.contributions)
      ensures TruthyInt(user.sectId) && old(sects.GetById(user.sectId.value)).Some? && CalledToday(user, now, day) ==>
                !ok && message == "今天已经点卯过了" && u == user && users.rows == old(users.rows)
                && sects.sects == old(sects.sects) && sects.contributions == old(sects.contributions)
      ensures TruthyInt(user.sectId) && old(sects.GetById(user.sectId.value)).Some? && !CalledToday(user, now, day) ==>
                var s := old(sects.GetById(user.sectId.value)).value;
                var c := RollCallContribution(user.realm);
                && ok && message == "点卯成功，获得 " + ShowContribution(c) + " 点宗门贡献"
                && u == user.(lastSectRollCallTime := Some(now))
                && users.rows == Updated(old(users.rows), u)
                && sects.contributions == Contributed(old(sects.contributions), user.userId, s.id, c,
                                                      old(sects.nextContributionId), now)
                && sects.sects == Bumped(old(sects.sects), s.id, c)
    {
      if !TruthyInt(user.sectId) {
        return false, "你没有宗门，无法点卯", user;
      }
      var found := sects.GetById(user.sectId.value);
      if found.None? {
        return false, "宗门不存在", user;
      }
      if user.lastSectRollCallTime.Some? {
        if day(now) == day(user.lastSectRollCallTime.value) {
          return false, "今天已经点卯过了", user;
        }
      }
      var s := found.value;
      var contribution := RollCallContribution(user.realm);
      var _ := sects.AddUserContribution(user.userId, s.id, contribution, now);
      u := user.(lastSectRollCallTime := Some(now));
      var _ := users.UpdateUser(u);
      ok, message := true, "点卯成功，获得 " + ShowContribution(contribution) + " 点宗门贡献";
    }
  }

  /** `max(a, b)` */
  function Max(a: int, b: int): int {
    if a >= b then a else b
  }
}
