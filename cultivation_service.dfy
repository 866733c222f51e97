/**
 * Closing-door and deep cultivation and hermit mode (`core/services/cultivation_service.py`):
 * a user's flags and timestamps move through a small state machine, and every accepted
 * step is written back with `update_user` and usually logged. Timestamps are whole
 * seconds; the random outcome of a closing and the (floating-point) gains are inputs.
 */
module CultivationService {
  import opened Wrappers
  import opened Models
  import opened Text
  import opened UserRepo
  import opened LogRepo
  import opened Clock

  /** Defaults of the `re_xiuxian` settings the service reads. */
  const ClosingCooldownDefault: int := 60
  const ClosingDurationDefault: int := 60
  const DeepCooldownDefault: int := 79200
  const DeepDurationDefault: int := 28800

  /** The log type of every closing entry. */
  const ClosingLog: string := "闭关"

  /** `config.get("re_xiuxian", {}).get(key, default)` */
  function Setting(settings: map<string, int>, key: string, default: int): (v: int)
    ensures key in settings ==> v == settings[key]
    ensures key !in settings ==> v == default
  {
    if key in settings then settings[key] else default
  }

  /** The three ends of a closing, decided by `random.random()` against 0.7 and 0.9. */
  datatype ClosingOutcome = Succeeded | Failed | Deviated

  /** `int(c * 0.1) if c > 0 else 0`: a tenth of a positive cultivation, rounded down. */
  function DeviationLoss(cultivation: int): (loss: int)
    ensures cultivation <= 0 ==> loss == 0
    ensures cultivation > 0 ==> 0 <= 10 * loss <= cultivation < 10 * (loss + 1)
  {
    if cultivation > 0 then cultivation / 10 else 0
  }

  /** The reason `start_closing_door_cultivation` refuses, checked in the source's order. */
  function ClosingRefusal(user: User, now: int, cooldown: int): (r: Option<string>)
    ensures r.None? <==> !user.isInClosing
                         && !(user.lastClosingTime.Some? && now < user.lastClosingTime.value + cooldown)
                         && !(user.isHermit && !StartsWith(user.realm, "炼气"))
    ensures user.isInClosing ==> r == Some("你正在闭关中，无法再次闭关")
  {
    if user.isInClosing then Some("你正在闭关中，无法再次闭关")
    else if user.lastClosingTime.Some? && now < user.lastClosingTime.value + cooldown then
      Some("闭关冷却中，还需等待 " + IntToString(DaySeconds(user.lastClosingTime.value + cooldown - now)) + " 秒")
    else if user.isHermit && !StartsWith(user.realm, "炼气") then Some("避世状态下无法闭关修炼")
    else None
  }

  /** The closing end time, when both the start and a non-zero duration are recorded. */
  function ClosingEnd(user: User): (r: Option<int>)
    ensures r.Some? <==> user.closingStartTime.Some? && TruthyInt(user.closingDuration)
    ensures r.Some? ==> r.value == user.closingStartTime.value + user.closingDuration.value
  {
    if user.closingStartTime.Some? && TruthyInt(user.closingDuration) then
      Some(user.closingStartTime.value + user.closingDuration.value)
    else None
  }

  /** The user with the three closing fields cleared. */
  function ClosingCleared(user: User): (u: User)
    ensures !u.isInClosing && u.closingStartTime.None? && u.closingDuration.None?
    ensures u.(isInClosing := user.isInClosing, closingStartTime := user.closingStartTime,
               closingDuration := user.closingDuration) == user
  {
    user.(isInClosing := false, closingStartTime := None, closingDuration := None)
  }

  /** The user after `_complete_closing_door_cultivation` with the given outcome and gain. */
  function Completed(user: User, now: int, outcome: ClosingOutcome, gain: int): (u: User)
    ensures !u.isInClosing && u.closingStartTime.None? && u.closingDuration.None?
    ensures u.totalClosingCount == user.totalClosingCount + 1 && u.lastClosingTime == Some(now)
    ensures outcome.Succeeded? ==> u.cultivation == user.cultivation + gain
                                   && u.totalExpGained == user.totalExpGained + gain
    ensures outcome.Failed? ==> u.cultivation == user.cultivation
    ensures outcome.Deviated? ==> u.cultivation >= 0
                                  && (user.cultivation >= 0 ==> u.cultivation == user.cultivation - DeviationLoss(user.cultivation))
    ensures !outcome.Succeeded? ==> u.totalExpGained == user.totalExpGained
    ensures u.(isInClosing := user.isInClosing, closingStartTime := user.closingStartTime,
               closingDuration := user.closingDuration, cultivation := user.cultivation,
               totalExpGained := user.totalExpGained, lastClosingTime := user.lastClosingTime,
               totalClosingCount := user.totalClosingCount) == user
  {
    var base := ClosingCleared(user).(lastClosingTime := Some(now), totalClosingCount := user.totalClosingCount + 1);
    match outcome
    case Succeeded => base.(cultivation := user.cultivation + gain, totalExpGained := user.totalExpGained + gain)
    case Failed => base
    case Deviated =>
      var c := user.cultivation - DeviationLoss(user.cultivation);
      base.(cultivation := if c > 0 then c else 0)
  }

  /** What a completion reports and logs. */
  function CompletionMessage(user: User, outcome: ClosingOutcome, gain: int): string {
    match outcome
    case Succeeded => "闭关成功，获得 " + IntToString(gain) + " 点修为"
    case Failed => "闭关失败，未获得修为"
    case Deviated => "走火入魔，损失 " + IntToString(DeviationLoss(user.cultivation)) + " 点修为"
  }

  /** The reason `start_deep_cultivation` refuses, checked in the source's order. */
  function DeepRefusal(user: User, now: int, cooldown: int): (r: Option<string>)
    ensures r.None? <==> !(user.deepClosingEndTime.Some? && user.deepClosingEndTime.value > now)
                         && !(user.lastClosingTime.Some? && now < user.lastClosingTime.value + cooldown)
  {
    if user.deepClosingEndTime.Some? && user.deepClosingEndTime.value > now then Some("你已经在深度闭关中")
    else if user.lastClosingTime.Some? && now < user.lastClosingTime.value + cooldown then
      Some("深度闭关冷却中，还需等待 " + IntToString(DaySeconds(user.lastClosingTime.value + cooldown - now)) + " 秒")
    else None
  }

  /** The user after a finished deep closing with the given gain. */
  function DeepCompleted(user: User, gain: int): (u: User)
    ensures u.cultivation == user.cultivation + gain && u.totalExpGained == user.totalExpGained + gain
    ensures u.deepClosingEndTime.None? && u.totalClosingCount == user.totalClosingCount + 1
    ensures u.(cultivation := user.cultivation, totalExpGained := user.totalExpGained,
               deepClosingEndTime := user.deepClosingEndTime, totalClosingCount := user.totalClosingCount) == user
  {
    user.(cultivation := user.cultivation + gain, totalExpGained := user.totalExpGained + gain,
          deepClosingEndTime := None, totalClosingCount := user.totalClosingCount + 1)
  }

  /**
   * Any completion starts the closing cooldown: until `cooldown` seconds have passed a new
   * closing is refused, and once they have passed the completed user may start again
   * (unless a hermit beyond the 炼气 realms).
   */
  lemma CompletionStartsCooldown(user: User, now: int, outcome: ClosingOutcome, gain: int, cooldown: int, later: int)
    requires now <= later
    ensures later < now + cooldown ==> ClosingRefusal(Completed(user, now, outcome, gain), later, cooldown).Some?
    ensures later >= now + cooldown && !(user.isHermit && !StartsWith(user.realm, "炼气"))
            ==> ClosingRefusal(Completed(user, now, outcome, gain), later, cooldown).None?
  {
  }

  /** A deep closing started at `now` is refused again, by either guard, until it has ended. */
  lemma DeepStartBlocksRestart(user: User, now: int, duration: int, later: int)
    requires duration > 0 && now <= later < now + duration
    ensures DeepRefusal(user.(deepClosingEndTime := Some(now + duration), lastClosingTime := Some(now)),
                        later, DeepCooldownDefault).Some?
  {
  }

  class CultivationService {
    const users: UserRepository
    const logs: LogRepository
    const settings: map<string, int>

    constructor (users: UserRepository, logs: LogRepository, settings: map<string, int>)
      ensures this.users == users && this.logs == logs && this.settings == settings
    {
      this.users := users;
      this.logs := logs;
      this.settings := settings;
    }

    function ClosingCooldown(): int { Setting(settings, "closed_door_cooldown", ClosingCooldownDefault) }
    function ClosingDuration(): int { Setting(settings, "closed_door_duration", ClosingDurationDefault) }
    function DeepCooldown(): int { Setting(settings, "deep_closed_door_cooldown", DeepCooldownDefault) }
    function DeepDuration(): int { Setting(settings, "deep_closed_door_duration", DeepDurationDefault) }

    /**
     * `start_closing_door_cultivation`: refused, with nothing written, while closing, within
     * the cooldown after the last closing, or as a hermit beyond the 炼气 realms; otherwise
     * the closing starts now for the configured duration and is saved.
     */
    method StartClosing(user: User, now: int) returns (ok: bool, message: string, u: User)
      requires users.Valid()
      modifies users`rows
      ensures users.Valid()
      ensures ok <==> ClosingRefusal(user, now, ClosingCooldown()).None?
      ensures !ok ==> message == ClosingRefusal(user, now, ClosingCooldown()).value
                      && u == user && users.rows == old(users.rows)
      ensures ok ==> u == user.(isInClosing := true, closingStartTime := Some(now), closingDuration := Some(ClosingDuration()))
                     && users.rows == Updated(old(users.rows), u)
                     && message == "开始闭关修炼，需要 " + IntToString(ClosingDuration()) + " 秒完成"
    {
      u := user;
      if u.isInClosing {
        return false, "你正在闭关中，无法再次闭关", u;
      }
      if u.lastClosingTime.Some? {
        var cooldown := Setting(settings, "closed_door_cooldown", ClosingCooldownDefault);
        if now < u.lastClosingTime.value + cooldown {
          var remaining := DaySeconds(u.lastClosingTime.value + cooldown - now);
          return false, "闭关冷却中，还需等待 " + IntToString(remaining) + " 秒", u;
        }
      }
      if u.isHermit && !StartsWith(u.realm, "炼气") {
        return false, "避世状态下无法闭关修炼", u;
      }
      var duration := Setting(settings, "closed_door_duration", ClosingDurationDefault);
      u := u.(isInClosing := true);
      u := u.(closingStartTime := Some(now));
      u := u.(closingDuration := Some(duration));
      var _ := users.UpdateUser(u);
      ok, message := true, "开始闭关修炼，需要 " + IntToString(duration) + " 秒完成";
    }

    /**
     * `_complete_closing_door_cultivation`: clears the closing, applies the outcome, counts
     * the closing and starts the cooldown; the user is saved and the result logged.
     */
    method CompleteClosing(user: User, now: int, outcome: ClosingOutcome, gain: int)
      returns (ok: bool, message: string, u: User)
      requires users.Valid() && logs.Valid()
      modifies users`rows, logs
      ensures users.Valid() && logs.Valid()
      ensures ok && u == Completed(user, now, outcome, gain)
      ensures message == CompletionMessage(user, outcome, gain)
      ensures users.rows == Updated(old(users.rows), u)
      ensures logs.rows == old(logs.rows) + [LogRow(old(logs.nextId), user.userId, ClosingLog, message, now)]
    {
      u := user;
      u := u.(isInClosing := false);
      u := u.(closingStartTime := None);
      u := u.(closingDuration := None);
      match outcome {
        case Succeeded =>
          u := u.(cultivation := u.cultivation + gain);
          u := u.(totalExpGained := u.totalExpGained + gain);
          message := "闭关成功，获得 " + IntToString(gain) + " 点修为";
        case Failed =>
          message := "闭关失败，未获得修为";
        case Deviated =>
          var loss := if u.cultivation > 0 then u.cultivation / 10 else 0;
          var c := u.cultivation - loss;
          u := u.(cultivation := if 0 >= c then 0 else c);
          message := "走火入魔，损失 " + IntToString(loss) + " 点修为";
      }
      u := u.(lastClosingTime := Some(now));
      u := u.(totalClosingCount := u.totalClosingCount + 1);
      var _ := users.UpdateUser(u);
      var _ := logs.AddLog(u.userId, ClosingLog, message, now);
      ok := true;
    }

    /**
     * `check_closing_door_cultivation`: refused when not closing; a closing with no start
     * or no duration is reset and saved; before its end nothing changes; at or after its
     * end it completes.
     */
    method CheckClosing(user: User, now: int, outcome: ClosingOutcome, gain: int)
      returns (ok: bool, message: string, u: User)
      requires users.Valid() && logs.Valid()
      modifies users`rows, logs
      ensures users.Valid() && logs.Valid()
      ensures !user.isInClosing ==>
                !ok && message == "你没有在闭关修炼" && u == user
                && users.rows == old(users.rows) && logs.rows == old(logs.rows)
      ensures user.isInClosing && ClosingEnd(user).None? ==>
                !ok && message == "闭关数据异常，已重置状态" && u == ClosingCleared(user)
                && users.rows == Updated(old(users.rows), u) && logs.rows == old(logs.rows)
      ensures user.isInClosing && ClosingEnd(user).Some? && now < ClosingEnd(user).value ==>
                ok && message == "闭关修炼中，剩余时间: " + IntToString(DaySeconds(ClosingEnd(user).value - now)) + " 秒"
                && u == user && users.rows == old(users.rows) && logs.rows == old(logs.rows)
      ensures user.isInClosing && ClosingEnd(user).Some? && now >= ClosingEnd(user).value ==>
                ok && u == Completed(user, now, outcome, gain) && message == CompletionMessage(user, outcome, gain)
                && users.rows == Updated(old(users.rows), u)
                && logs.rows == old(logs.rows) + [LogRow(old(logs.nextId), user.userId, ClosingLog, message, now)]
    {
      if !user.isInClosing {
        return false, "你没有在闭关修炼", user;
      }
      if user.closingStartTime.Some? && TruthyInt(user.closingDuration) {
        var closingEnd := user.closingStartTime.value + user.closingDuration.value;
        if now >= closingEnd {
          ok, message, u := CompleteClosing(user, now, outcome, gain);
        } else {
          var remaining := closingEnd - now;
          ok, message, u := true, "闭关修炼中，剩余时间: " + IntToString(DaySeconds(remaining)) + " 秒", user;
        }
      } else {
        u := user;
        u := u.(isInClosing := false);
        u := u.(closingStartTime := None);
        u := u.(closingDuration := None);
        var _ := users.UpdateUser(u);
        ok, message := false, "闭关数据异常，已重置状态";
      }
    }

    /**
     * `start_deep_cultivation`: refused while a deep closing is still running or within the
     * deep cooldown; otherwise it ends `duration` seconds from now, the cooldown restarts,
     * and the start is saved and logged.
     */
    method StartDeep(user: User, now: int) returns (ok: bool, message: string, u: User)
      requires users.Valid() && logs.Valid()
      modifies users`rows, logs
      ensures users.Valid() && logs.Valid()
      ensures ok <==> DeepRefusal(user, now, DeepCooldown()).None?
      ensures !ok ==> message == DeepRefusal(user, now, DeepCooldown()).value && u == user
                      && users.rows == old(users.rows) && logs.rows == old(logs.rows)
      ensures ok ==> u == user.(deepClosingEndTime := Some(now + DeepDuration()), lastClosingTime := Some(now))
                     && message == "开始深度闭关，将持续 " + IntToString(DeepDuration() / 3600) + " 小时"
                     && users.rows == Updated(old(users.rows), u)
                     && logs.rows == old(logs.rows) + [LogRow(old(logs.nextId), user.userId, ClosingLog, message, now)]
    {
      u := user;
      if u.deepClosingEndTime.Some? && u.deepClosingEndTime.value > now {
        return false, "你已经在深度闭关中", u;
      }
      if u.lastClosingTime.Some? {
        var cooldown := Setting(settings, "deep_closed_door_cooldown", DeepCooldownDefault);
        if now < u.lastClosingTime.value + cooldown {
          var remaining := DaySeconds(u.lastClosingTime.value + cooldown - now);
          return false, "深度闭关冷却中，还需等待 " + IntToString(remaining) + " 秒", u;
        }
      }
      var duration := Setting(settings, "deep_closed_door_duration", DeepDurationDefault);
      u := u.(deepClosingEndTime := Some(now + duration));
      u := u.(lastClosingTime := Some(now));
      var _ := users.UpdateUser(u);
      message := "开始深度闭关，将持续 " + IntToString(duration / 3600) + " 小时";
      var _ := logs.AddLog(u.userId, ClosingLog, message, now);
      ok := true;
    }

    /**
     * `check_deep_cultivation`: refused without a deep closing; at or after its end the gain
     * is added, the end cleared and the closing counted, saved and logged; before its end
     * nothing changes and the remaining hours and minutes are reported.
     */
    method CheckDeep(user: User, now: int, gain: int) returns (ok: bool, message: string, u: User)
      requires users.Valid() && logs.Valid()
      modifies users`rows, logs
      ensures users.Valid() && logs.Valid()
      ensures user.deepClosingEndTime.None? ==>
                !ok && message == "你没有在进行深度闭关" && u == user
                && users.rows == old(users.rows) && logs.rows == old(logs.rows)
      ensures user.deepClosingEndTime.Some? && user.deepClosingEndTime.value <= now ==>
                ok && u == DeepCompleted(user, gain)
                && message == "深度闭关结束，获得 " + IntToString(gain) + " 点修为"
                && users.rows == Updated(old(users.rows), u)
                && logs.rows == old(logs.rows) + [LogRow(old(logs.nextId), user.userId, ClosingLog, message, now)]
      ensures user.deepClosingEndTime.Some? && user.deepClosingEndTime.value > now ==>
                var left := DaySeconds(user.deepClosingEndTime.value - now);
                ok && u == user && users.rows == old(users.rows) && logs.rows == old(logs.rows)
                && message == "深度闭关中，剩余时间: " + IntToString(left / 3600) + " 小时 "
                                + IntToString(left % 3600 / 60) + " 分钟"
    {
      u := user;
      if u.deepClosingEndTime.None? {
        return false, "你没有在进行深度闭关", u;
      }
      if u.deepClosingEndTime.value <= now {
        u := u.(cultivation := u.cultivation + gain);
        u := u.(totalExpGained := u.totalExpGained + gain);
        u := u.(deepClosingEndTime := None);
        u := u.(totalClosingCount := u.totalClosingCount + 1);
        var _ := users.UpdateUser(u);
        message := "深度闭关结束，获得 " + IntToString(gain) + " 点修为";
        var _ := logs.AddLog(u.userId, ClosingLog, message, now);
        ok := true;
      } else {
        var remaining := DaySeconds(u.deepClosingEndTime.value - now);
        var hours := remaining / 3600;
        var minutes := remaining % 3600 / 60;
        ok, message := true, "深度闭关中，剩余时间: " + IntToString(hours) + " 小时 " + IntToString(minutes) + " 分钟";
      }
    }

    /**
     * `toggle_hermit_mode`: enabling is refused outside the 炼气 realms; otherwise the flag
     * takes the requested value, and the change is saved and logged.
     */
    method ToggleHermit(user: User, enable: bool, now: int) returns (ok: bool, message: string, u: User)
      requires users.Valid() && logs.Valid()
      modifies users`rows, logs
      ensures users.Valid() && logs.Valid()
      ensures ok <==> !enable || StartsWith(user.realm, "炼气")
      ensures !ok ==> message == "只有炼气期修士才能开启避世模式" && u == user
                      && users.rows == old(users.rows) && logs.rows == old(logs.rows)
      ensures ok ==> u == user.(isHermit := enable) && users.rows == Updated(old(users.rows), u)
                     && logs.rows == old(logs.rows) + [LogRow(old(logs.nextId), user.userId, "状态",
                                                            if enable then "开启避世模式" else "关闭避世模式", now)]
                     && message == if enable then "已开启避世模式，你将无法被攻击，也无法攻击他人" else "已关闭避世模式，重新入世"
    {
      if !StartsWith(user.realm, "炼气") && enable {
        return false, "只有炼气期修士才能开启避世模式", user;
      }
      u := user.(isHermit := enable);
      var _ := users.UpdateUser(u);
      if enable {
        var _ := logs.AddLog(u.userId, "状态", "开启避世模式", now);
        ok, message := true, "已开启避世模式，你将无法被攻击，也无法攻击他人";
      } else {
        var _ := logs.AddLog(u.userId, "状态", "关闭避世模式", now);
        ok, message := true, "已关闭避世模式，重新入世";
      }
    }
  }
}
