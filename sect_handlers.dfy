/**
 * The sect commands of `handlers/sect_handlers.py`: `拜入宗门 <name>` is parsed into a sect
 * name, `我的宗门` shows the user's sect, and the betrayal and roll-call commands pass the
 * user on to the sect service. Every command first requires detected spiritual roots.
 */
module SectHandlers {
  import opened Wrappers
  import opened Models
  import opened Text
  import opened UserRepo
  import opened SectRepo
  import opened SectService
  import opened Clock

  const NoTalentReply: string := "你尚未踏入修仙之路，请先使用「检测灵根」命令"
  const JoinFormatReply: string := "命令格式错误，请使用：拜入宗门 <宗门名>"
  const NoSectNameReply: string := "请指定要加入的宗门名称"
  /** The handlers' own reply to a user without a sect. */
  const NoSectReply: string := "你目前没有加入任何宗门"
  const BrokenSectReply: string := "宗门信息异常"

  /** A parsed `拜入宗门` command: refused with a reply, or the sect name to join. */
  datatype JoinCommand = JoinReject(reply: string) | Join(sectName: string)

  /** The sect name of a join command: `message.strip()[5:].strip()`. */
  function SectNameOf(message: string): string {
    Strip(Drop(Strip(message), 5))
  }

  /**
   * `join_sect`'s parsing: the stripped message must start with `拜入宗门`; five characters
   * are dropped and the rest is stripped; an empty name is refused.
   */
  function ParseJoinSect(message: string): (c: JoinCommand)
    ensures c.Join? <==> StartsWith(Strip(message), "拜入宗门") && SectNameOf(message) != ""
    ensures c.Join? ==> c.sectName == SectNameOf(message)
    ensures !StartsWith(Strip(message), "拜入宗门") ==> c == JoinReject(JoinFormatReply)
    ensures StartsWith(Strip(message), "拜入宗门") && SectNameOf(message) == "" ==> c == JoinReject(NoSectNameReply)
  {
    if !StartsWith(Strip(message), "拜入宗门") then JoinReject(JoinFormatReply)
    else
      var name := SectNameOf(message);
      if name == "" then JoinReject(NoSectNameReply) else Join(name)
  }

  /** The sect name handed to the service is never empty and has no whitespace at its ends. */
  lemma JoinNameTrimmed(message: string)
    requires ParseJoinSect(message).Join?
    ensures var name := ParseJoinSect(message).sectName;
            |name| > 0 && !IsSpace(name[0]) && !IsSpace(name[|name| - 1])
  {
  }

  /** `拜入宗门 <name>` reads back as the name when the name has no whitespace at its ends. */
  lemma JoinRoundTrip(name: string)
    requires |name| > 0 && !IsSpace(name[0]) && !IsSpace(name[|name| - 1])
    ensures ParseJoinSect("拜入宗门 " + name) == Join(name)
  {
    var msg := "拜入宗门 " + name;
    assert msg[|msg| - 1] == name[|name| - 1];
    StripUnspaced(msg);
    assert msg[..4] == "拜入宗门";
    assert msg[5..] == name;
    StripUnspaced(name);
  }

  /**
   * `join_sect`: a user without talent, or a message that does not parse, gets a reply and
   * nothing changes; otherwise the sect service's `join_sect` decides.
   */
  method JoinSect(svc: SectService, user: User, message: string) returns (reply: string)
    requires svc.users.Valid() && svc.sects.Valid()
    modifies svc.users`rows, svc.sects`sects
    ensures svc.users.Valid() && svc.sects.Valid()
    ensures !Truthy(user.talent) ==>
              reply == NoTalentReply && svc.users.rows == old(svc.users.rows) && svc.sects.sects == old(svc.sects.sects)
    ensures Truthy(user.talent) && ParseJoinSect(message).JoinReject? ==>
              reply == ParseJoinSect(message).reply
              && svc.users.rows == old(svc.users.rows) && svc.sects.sects == old(svc.sects.sects)
    ensures Truthy(user.talent) && ParseJoinSect(message).Join? ==>
              var name := ParseJoinSect(message).sectName;
              && (TruthyInt(user.sectId) || old(svc.sects.GetByName(name)).None? ==>
                    svc.users.rows == old(svc.users.rows) && svc.sects.sects == old(svc.sects.sects))
              && (TruthyInt(user.sectId) ==> reply == "你已经有宗门了，无法再加入其他宗门")
              && (!TruthyInt(user.sectId) && old(svc.sects.GetByName(name)).None? ==> reply == "未找到宗门: " + name)
              && (!TruthyInt(user.sectId) && old(svc.sects.GetByName(name)).Some? ==>
                    var s := old(svc.sects.GetByName(name)).value;
                    && reply == "成功加入宗门 " + s.name
                    && svc.users.rows == Updated(old(svc.users.rows), user.(sectId := Some(s.id), sectPosition := Some(Disciple)))
                    && svc.sects.sects == JoinedSects(old(svc.sects.sects), s))
  {
    if !Truthy(user.talent) {
      return NoTalentReply;
    }
    var command := ParseJoinSect(message);
    if command.JoinReject? {
      return command.reply;
    }
    var _, r, _ := svc.JoinSect(user, command.sectName);
    reply := r;
  }

  /** The text `my_sect` shows for a sect, a contribution and the user's position. */
  function SectInfo(s: Sect, contribution: int, position: Option<string>): string {
    SectHead(s) + ContributionLine(contribution) + PositionLine(position)
  }

  /** The title, name, description and member-count lines of the sect info. */
  function SectHead(s: Sect): string {
    "=== 宗门信息 ===\n"
    + "宗门名称：" + s.name + "\n"
    + "宗门描述：" + Show(s.description) + "\n"
    + "成员数量：" + IntToString(s.memberCount) + "\n"
  }

  function ContributionLine(c: int): string {
    "宗门贡献：" + IntToString(c) + "\n"
  }

  function PositionLine(position: Option<string>): string {
    "你的职位：" + Show(position) + "\n"
  }

  /** The contribution `my_sect` shows: the stored total, or 0 without a contribution row. */
  function ShownContribution(sects: SectRepository, userId: string, sectId: int): (c: int)
    reads sects
    ensures (userId, sectId) !in sects.contributions ==> c == 0
    ensures (userId, sectId) in sects.contributions ==> c == sects.contributions[(userId, sectId)].contribution.GetOr(0)
  {
    match sects.GetUserContribution(userId, sectId)
    case None => 0
    case Some(row) => row.contribution
  }

  /**
   * `my_sect`: guarded by talent and by the user's sect id before the service is asked;
   * a sect id naming no sect is reported as broken.
   */
  function MySect(svc: SectService, user: User): (reply: string)
    reads svc.sects
    ensures !Truthy(user.talent) ==> reply == NoTalentReply
    ensures Truthy(user.talent) && !TruthyInt(user.sectId) ==> reply == NoSectReply
    ensures Truthy(user.talent) && TruthyInt(user.sectId) && svc.sects.GetById(user.sectId.value).None? ==>
              reply == BrokenSectReply
    ensures Truthy(user.talent) && TruthyInt(user.sectId) && svc.sects.GetById(user.sectId.value).Some? ==>
              var s := svc.sects.GetById(user.sectId.value).value;
              reply == SectInfo(s, ShownContribution(svc.sects, user.userId, s.id), user.sectPosition)
  {
    if !Truthy(user.talent) then NoTalentReply
    else if !TruthyInt(user.sectId) then NoSectReply
    else
      match svc.GetUserSect(user)
      case None => BrokenSectReply
      case Some(s) => SectInfo(s, ShownContribution(svc.sects, user.userId, s.id), user.sectPosition)
  }

  /** A member with no contribution row is shown a contribution of 0. */
  lemma MySectWithoutContribution(svc: SectService, user: User, s: Sect)
    requires Truthy(user.talent) && TruthyInt(user.sectId) && svc.sects.GetById(user.sectId.value) == Some(s)
    requires (user.userId, s.id) !in svc.sects.contributions
    ensures MySect(svc, user) == SectInfo(s, 0, user.sectPosition)
  {
  }

  /** The info text carries the contribution line. */
  lemma SectInfoShowsContribution(s: Sect, c: int, position: Option<string>)
    ensures Contains(SectInfo(s, c, position), "宗门贡献：" + IntToString(c) + "\n")
  {
    ContainsMiddle(SectHead(s), ContributionLine(c), PositionLine(position));
  }

  /** `betray_sect`: guarded by talent only; the service's message is the reply and its effects the command's. */
  method BetraySect(svc: SectService, user: User, now: int) returns (reply: string)
    requires svc.users.Valid() && svc.sects.Valid()
    modifies svc.users`rows, svc.sects`sects
    ensures svc.users.Valid() && svc.sects.Valid()
    ensures !Truthy(user.talent) ==>
              reply == NoTalentReply && svc.users.rows == old(svc.users.rows) && svc.sects.sects == old(svc.sects.sects)
    ensures Truthy(user.talent) && !TruthyInt(user.sectId) ==>
              reply == "你没有宗门，无法叛出" && svc.users.rows == old(svc.users.rows) && svc.sects.sects == old(svc.sects.sects)
    ensures Truthy(user.talent) && TruthyInt(user.sectId) && old(svc.sects.GetById(user.sectId.value)).None? ==>
              reply == "宗门不存在" && svc.users.rows == Updated(old(svc.users.rows), user.(sectId := None, sectPosition := None))
              && svc.sects.sects == old(svc.sects.sects)
    ensures Truthy(user.talent) && TruthyInt(user.sectId) && old(svc.sects.GetById(user.sectId.value)).Some?
            && BetrayCoolingDown(user, now) ==>
              var left := DaySeconds(user.lastSectRollCallTime.value + BetrayCooldown - now);
              && reply == "叛门冷却中，还需等待 " + IntToString(left / 60) + " 分 " + IntToString(left % 60) + " 秒"
              && svc.users.rows == old(svc.users.rows) && svc.sects.sects == old(svc.sects.sects)
    ensures Truthy(user.talent) && TruthyInt(user.sectId) && old(svc.sects.GetById(user.sectId.value)).Some?
            && !BetrayCoolingDown(user, now) ==>
              var s := old(svc.sects.GetById(user.sectId.value)).value;
              && reply == "成功叛出宗门 " + s.name + "，进入4小时叛门冷却期"
              && svc.users.rows == Updated(old(svc.users.rows), user.(sectId := None, sectPosition := None, lastSectRollCallTime := Some(now)))
              && svc.sects.sects == LeftSects(old(svc.sects.sects), s)
  {
    if !Truthy(user.talent) {
      return NoTalentReply;
    }
    var _, r, _ := svc.BetraySect(user, now);
    reply := r;
  }

  /**
   * `sect_roll_call`: guarded by talent and by the user's sect id, so a user without a sect
   * gets the handlers' reply and the service is not asked.
   */
  method SectRollCall(svc: SectService, user: User, now: int, day: int -> int) returns (reply: string)
    requires svc.users.Valid() && svc.sects.Valid()
    modifies svc.users`rows, svc.sects
    ensures svc.users.Valid() && svc.sects.Valid()
    ensures !Truthy(user.talent) || !TruthyInt(user.sectId) ==>
              reply == (if !Truthy(user.talent) then NoTalentReply else NoSectReply)
              && svc.users.rows == old(svc.users.rows)
              && svc.sects.sects == old(svc.sects.sects) && svc.sects.contributions == old(svc.sects.contributions)
    ensures Truthy(user.talent) && TruthyInt(user.sectId) && old(svc.sects.GetById(user.sectId.value)).Some?
            && !CalledToday(user, now, day) ==>
              var s := old(svc.sects.GetById(user.sectId.value)).value;
              var c := RollCallContribution(user.realm);
              && reply == "点卯成功，获得 " + ShowContribution(c) + " 点宗门贡献"
              && svc.users.rows == Updated(old(svc.users.rows), user.(lastSectRollCallTime := Some(now)))
              && svc.sects.contributions == Contributed(old(svc.sects.contributions), user.userId, s.id, c,
                                                        old(svc.sects.nextContributionId), now)
              && svc.sects.sects == Bumped(old(svc.sects.sects), s.id, c)
              && svc.sects.nextContributionId ==
                   if (user.userId, s.id) in old(svc.sects.contributions)
                   then old(svc.sects.nextContributionId) else old(svc.sects.nextContributionId) + 1
    ensures Truthy(user.talent) && TruthyInt(user.sectId) && old(svc.sects.GetById(user.sectId.value)).None? ==>
              reply == "宗门不存在" && svc.users.rows == old(svc.users.rows)
              && svc.sects.sects == old(svc.sects.sects) && svc.sects.contributions == old(svc.sects.contributions)
    ensures Truthy(user.talent) && TruthyInt(user.sectId) && old(svc.sects.GetById(user.sectId.value)).Some?
            && CalledToday(user, now, day) ==>
              reply == "今天已经点卯过了" && svc.users.rows == old(svc.users.rows)
              && svc.sects.sects == old(svc.sects.sects) && svc.sects.contributions == old(svc.sects.contributions)
    ensures svc.sects.nextSectId == old(svc.sects.nextSectId)
    ensures !(Truthy(user.talent) && TruthyInt(user.sectId) && old(svc.sects.GetById(user.sectId.value)).Some?
              && !CalledToday(user, now, day)) ==>
              svc.sects.nextContributionId == old(svc.sects.nextContributionId)
    ensures reply != "你没有宗门，无法点卯"
  {
    if !Truthy(user.talent) {
      return NoTalentReply;
    }
    if !TruthyInt(user.sectId) {
      return NoSectReply;
    }
    var _, r, _ := svc.SectRollCall(user, now, day);
    reply := r;
    assert reply[0] != '你';
  }
}
