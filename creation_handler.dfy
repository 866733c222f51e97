/**
 * Character creation in `handlers/creation_handler.py`: a per-user state in the
 * creation-state table moves from `awaiting_name` to `awaiting_avatar`, and the avatar
 * step creates the player and deletes the state row. The image conversions and the new
 * player's initial stats come from code outside this model and are inputs here.
 */
module CreationHandler {
  import opened Wrappers
  import opened Text
  import opened DataManager

  const AwaitingName: string := "awaiting_name"
  const AwaitingAvatar: string := "awaiting_avatar"
  /** Where every new player starts. */
  const StartMap: string := "青云镇"
  const DefaultAvatar: string := "custom_avatar"

  const AlreadyPlayerReply: string := "道友，你已踏入仙途，无需重复此举。"
  const BadNameReply: string := "名字长度需在1-10个字符之间，请重新输入你的角色名："
  const NoImageReply: string := "请发送一张图片作为你的形象。"

  const StoryReply: string :=
    "混沌初开，天地始分。\n"
    + "在这浩瀚的修仙世界中，你从沉睡中苏醒。\n"
    + "你发现自己身处一片荒芜之地，四周空无一人。\n"
    + "一个苍老的声音在你耳边响起：\n"
    + "「孩子，你终于醒了。这个世界需要新的修仙者来维护它的平衡。」\n"
    + "「不过，修仙之路漫长而艰辛，你需要先在这个世界立足。」\n"
    + "「告诉我，你的名字是什么？（请回复你的角色名）」"

  const WelcomeReply: string :=
    "「很好，现在你有了在这个世界立足的形象。」\n"
    + "「接下来，你需要通过自己的努力在这个世界生存下去。」\n"
    + "「你可以通过挖矿、砍伐、采集等方式获取资源，然后建造属于你的家园。」\n"
    + "「当你积累足够的资源后，就可以踏上真正的修仙之路了。」\n"
    + "「发送「我的信息」查看状态，「查看地图」了解周围环境！」\n"
    + "「祝你好运，未来的修仙者！」"

  function NameReply(name: string): string {
    "「" + name + "，好名字！」老者满意地点头。\n"
    + "「接下来，你需要选择一个形象来代表你在这个世界的模样。」\n"
    + "「请发送一张图片作为你的形象。」"
  }

  /** A name is accepted when it has one to ten characters. */
  predicate ValidName(name: string) {
    1 <= |name| <= 10
  }

  /** The result of one image conversion: it raised, or it returned a string. */
  datatype Conversion = Raised | Returned(value: string)

  /**
   * The avatar data: `base64://` and the data when the base64 conversion returns a
   * non-empty string; `file://` and the path only when that conversion raised and the
   * path conversion returns a non-empty string; otherwise `custom_avatar`.
   */
  function AvatarData(base64: Conversion, file: Conversion): (a: string)
    ensures a != ""
  {
    match base64
    case Returned(data) => if data != "" then "base64://" + data else DefaultAvatar
    case Raised =>
      match file
      case Returned(path) => if path != "" then "file://" + path else DefaultAvatar
      case Raised => DefaultAvatar
  }

  /** Which source an avatar came from is told by its prefix. */
  lemma AvatarSources(base64: Conversion, file: Conversion)
    ensures var a := AvatarData(base64, file);
            && (StartsWith(a, "base64://") <==> base64.Returned? && base64.value != "")
            && (StartsWith(a, "file://") <==> base64.Raised? && file.Returned? && file.value != "")
            && (a == DefaultAvatar <==> !StartsWith(a, "base64://") && !StartsWith(a, "file://"))
  {
    var a := AvatarData(base64, file);
    if base64.Returned? && base64.value != "" {
      assert a[0] == 'b';
      assert a[..9] == "base64://";
    } else if base64.Raised? && file.Returned? && file.value != "" {
      assert a[0] == 'f';
      assert a[..7] == "file://";
    } else {
      assert a == DefaultAvatar;
      assert a[0] == 'c';
    }
  }

  /**
   * The creation tables are consistent: a user awaiting an avatar has stored a valid name.
   * Every step of the flow keeps this.
   */
  ghost predicate Consistent(db: DataBase)
    reads db
  {
    forall u :: u in db.creationStates && db.creationStates[u] == AwaitingAvatar ==>
      (u, "name") in db.creationData && ValidName(db.creationData[(u, "name")])
  }

  class CreationHandler {
    const db: DataBase

    constructor (db: DataBase)
      ensures this.db == db
    {
      this.db := db;
    }

    /**
     * `handle_new_player_story`: an existing player is refused and nothing changes;
     * anyone else hears the story and is left awaiting a name.
     */
    method HandleNewPlayerStory(userId: string) returns (reply: string)
      requires Consistent(db)
      modifies db`creationStates
      ensures Consistent(db)
      ensures userId in db.players ==> reply == AlreadyPlayerReply && db.creationStates == old(db.creationStates)
      ensures userId !in db.players ==>
                reply == StoryReply && db.creationStates == old(db.creationStates)[userId := AwaitingName]
    {
      if db.GetPlayerById(userId).Some? {
        return AlreadyPlayerReply;
      }
      reply := StoryReply;
      db.SetPlayerCreationState(userId, AwaitingName);
    }

    /**
     * `handle_player_name_input`: silent unless the user awaits a name; a name outside one
     * to ten characters is refused and nothing is saved; a valid name is stored under
     * `name` and the user then awaits an avatar.
     */
    method HandlePlayerNameInput(userId: string, name: string) returns (reply: Option<string>)
      requires Consistent(db)
      modifies db`creationStates, db`creationData
      ensures Consistent(db)
      ensures old(db.GetPlayerCreationState(userId)) != Some(AwaitingName) || !ValidName(name) ==>
                && reply == (if old(db.GetPlayerCreationState(userId)) != Some(AwaitingName) then None else Some(BadNameReply))
                && db.creationStates == old(db.creationStates) && db.creationData == old(db.creationData)
      ensures old(db.GetPlayerCreationState(userId)) == Some(AwaitingName) && ValidName(name) ==>
                && reply == Some(NameReply(name))
                && db.creationData == old(db.creationData)[(userId, "name") := name]
                && db.creationStates == old(db.creationStates)[userId := AwaitingAvatar]
    {
      if db.GetPlayerCreationState(userId) != Some(AwaitingName) {
        return None;
      }
      if !ValidName(name) {
        return Some(BadNameReply);
      }
      db.SetPlayerCreationData(userId, "name", name);
      reply := Some(NameReply(name));
      db.SetPlayerCreationState(userId, AwaitingAvatar);
    }

    /**
     * `handle_player_avatar_input`: silent unless the user awaits an avatar; without an
     * image the user is asked again and nothing changes. With one, the avatar data is
     * stored, the player (`stats`, the generated initial stats) is created on the start
     * map with that avatar, and the state row is deleted while the creation data stays.
     * When `create_player` raises, the stored avatar data remains and the state row too.
     */
    method HandlePlayerAvatarInput(userId: string, hasImage: bool, base64: Conversion, file: Conversion, stats: Player)
      returns (raised: bool, reply: Option<string>)
      requires db.Valid() && Consistent(db)
      requires stats.userId == userId
      modifies db`players, db`creationStates, db`creationData
      ensures db.Valid() && Consistent(db)
      ensures old(db.GetPlayerCreationState(userId)) != Some(AwaitingAvatar) || !hasImage ==>
                && !raised
                && reply == (if old(db.GetPlayerCreationState(userId)) != Some(AwaitingAvatar) then None else Some(NoImageReply))
                && db.players == old(db.players) && db.creationStates == old(db.creationStates)
                && db.creationData == old(db.creationData)
      ensures old(db.GetPlayerCreationState(userId)) == Some(AwaitingAvatar) && hasImage ==>
                var avatar := AvatarData(base64, file);
                && db.creationData == old(db.creationData)[(userId, "avatar") := avatar]
                && (raised <==> userId in old(db.players))
                && (raised ==> reply.None? && db.players == old(db.players) && db.creationStates == old(db.creationStates))
                && (!raised ==>
                      && reply == Some(WelcomeReply)
                      && db.players == old(db.players)[userId := stats.(currentMap := StartMap, avatar := Some(avatar))]
                      && db.creationStates == old(db.creationStates) - {userId}
                      && db.GetPlayerAvatarData(userId) == avatar)
    {
      if db.GetPlayerCreationState(userId) != Some(AwaitingAvatar) {
        return false, None;
      }
      if !hasImage {
        return false, Some(NoImageReply);
      }
      var avatar := AvatarData(base64, file);
      db.SetPlayerCreationData(userId, "avatar", avatar);
      var player := stats.(currentMap := StartMap, avatar := Some(avatar));
      raised := db.CreatePlayer(player);
      if raised {
        return true, None;
      }
      db.ClearPlayerCreationState(userId);
      reply := Some(WelcomeReply);
    }
  }
}
