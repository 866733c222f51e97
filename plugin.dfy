/**
 * The plugin entry of `main.py`: the group whitelist that gates every message, and the
 * routing of plain messages to the character-creation steps by the sender's state.
 */
module Plugin {
  import opened Wrappers
  import opened Text
  import opened DataManager
  import opened CreationHandler

  /** A configured whitelist entry: the configuration may list group ids as numbers or strings. */
  datatype GroupEntry = GroupNumber(n: int) | GroupName(s: string)

  /** `str(g)` of an entry. */
  function EntryText(g: GroupEntry): string {
    match g
    case GroupNumber(n) => IntToString(n)
    case GroupName(s) => s
  }

  /** `[str(g) for g in WHITELIST_GROUPS]` */
  function Whitelist(entries: seq<GroupEntry>): (w: seq<string>)
    ensures |w| == |entries|
    ensures forall i :: 0 <= i < |entries| ==> w[i] == EntryText(entries[i])
  {
    if |entries| == 0 then [] else [EntryText(entries[0])] + Whitelist(entries[1..])
  }

  /**
   * `_check_access`: everything is allowed with an empty whitelist, and so is a message
   * without a group id (a private chat); otherwise the group must be listed.
   */
  function CheckAccess(whitelist: seq<string>, groupId: Option<string>): (allowed: bool)
    ensures whitelist == [] ==> allowed
    ensures groupId.None? || groupId == Some("") ==> allowed
    ensures whitelist != [] && groupId.Some? && groupId.value != "" ==> (allowed <==> groupId.value in whitelist)
  {
    if whitelist == [] then true
    else if groupId.None? || groupId.value == "" then true
    else groupId.value in whitelist
  }

  /** A group configured by number is admitted under its decimal id. */
  lemma NumberedGroupAdmitted(entries: seq<GroupEntry>, n: int)
    requires GroupNumber(n) in entries
    ensures CheckAccess(Whitelist(entries), Some(IntToString(n)))
  {
    var i :| 0 <= i < |entries| && entries[i] == GroupNumber(n);
    assert Whitelist(entries)[i] == IntToString(n);
  }

  /** A group is refused exactly when a whitelist is configured and does not list it. */
  lemma RefusedOnlyByWhitelist(entries: seq<GroupEntry>, groupId: Option<string>)
    ensures !CheckAccess(Whitelist(entries), groupId) <==>
              entries != [] && groupId.Some? && groupId.value != ""
              && forall g :: g in entries ==> EntryText(g) != groupId.value
  {
    var w := Whitelist(entries);
    if entries != [] && groupId.Some? && groupId.value != "" {
      if groupId.value in w {
        var i :| 0 <= i < |w| && w[i] == groupId.value;
        assert entries[i] in entries;
      } else {
        forall g | g in entries
          ensures EntryText(g) != groupId.value
        {
          var i :| 0 <= i < |entries| && entries[i] == g;
          assert w[i] == EntryText(g);
        }
      }
    }
  }

  /** The creation step a plain message goes to, if any. */
  datatype Route = Ignore | NameInput(name: string) | AvatarInput

  /**
   * `handle_message`'s routing: nothing for a denied message; while awaiting a name, the
   * stripped text is the name unless it starts with `/` or is the command word 我要修仙;
   * while awaiting an avatar, only a message with an image goes on.
   */
  function RouteMessage(allowed: bool, state: Option<string>, text: string, hasImage: bool): (r: Route)
    ensures !allowed ==> r == Ignore
    ensures allowed && state == Some(AwaitingName) ==>
              r == if !StartsWith(Strip(text), "/") && Strip(text) != "我要修仙" then NameInput(Strip(text)) else Ignore
    ensures allowed && state == Some(AwaitingAvatar) ==> r == if hasImage then AvatarInput else Ignore
    ensures state != Some(AwaitingName) && state != Some(AwaitingAvatar) ==> r == Ignore
  {
    if !allowed then Ignore
    else if state == Some(AwaitingName) then
      var name := Strip(text);
      if !StartsWith(name, "/") && name != "我要修仙" then NameInput(name) else Ignore
    else if state == Some(AwaitingAvatar) then
      if hasImage then AvatarInput else Ignore
    else Ignore
  }

  /** A routed name is what the user typed without surrounding whitespace, and never a command. */
  lemma RoutedNameIsTrimmed(allowed: bool, state: Option<string>, text: string, hasImage: bool)
    requires RouteMessage(allowed, state, text, hasImage).NameInput?
    ensures var name := RouteMessage(allowed, state, text, hasImage).name;
            && allowed && state == Some(AwaitingName)
            && (|name| > 0 ==> !IsSpace(name[0]) && !IsSpace(name[|name| - 1]))
            && !StartsWith(name, "/") && name != "我要修仙"
            && (forall k :: 0 <= k < |text| && !IsSpace(text[k]) ==> name != "")
  {
  }

  class XiuXianPlugin {
    const db: DataBase
    const creation: CreationHandler
    const whitelist: seq<string>

    constructor (db: DataBase, creation: CreationHandler, entries: seq<GroupEntry>)
      ensures this.db == db && this.creation == creation && this.whitelist == Whitelist(entries)
    {
      this.db := db;
      this.creation := creation;
      this.whitelist := Whitelist(entries);
    }

    /**
     * `handle_message`: a denied or unrouted message changes nothing; a routed one is
     * handed to the creation step it names.
     */
    method HandleMessage(userId: string, groupId: Option<string>, text: string, hasImage: bool,
                         base64: Conversion, file: Conversion, stats: Player)
      returns (raised: bool, reply: Option<string>)
      requires creation.db == db && db.Valid() && Consistent(db)
      requires stats.userId == userId
      modifies db`players, db`creationStates, db`creationData
      ensures db.Valid() && Consistent(db)
      ensures RouteMessage(CheckAccess(whitelist, groupId), old(db.GetPlayerCreationState(userId)), text, hasImage) == Ignore ==>
                !raised && reply.None?
                && db.players == old(db.players) && db.creationStates == old(db.creationStates)
                && db.creationData == old(db.creationData)
      ensures RouteMessage(CheckAccess(whitelist, groupId), old(db.GetPlayerCreationState(userId)), text, hasImage).NameInput? ==>
                var name := Strip(text);
                && !raised && db.players == old(db.players)
                && reply == Some(if ValidName(name) then NameReply(name) else BadNameReply)
                && (ValidName(name) ==>
                      && db.creationData == old(db.creationData)[(userId, "name") := name]
                      && db.creationStates == old(db.creationStates)[userId := AwaitingAvatar])
                && (!ValidName(name) ==>
                      db.creationData == old(db.creationData) && db.creationStates == old(db.creationStates))
      ensures RouteMessage(CheckAccess(whitelist, groupId), old(db.GetPlayerCreationState(userId)), text, hasImage) == AvatarInput ==>
                var avatar := AvatarData(base64, file);
                && db.creationData == old(db.creationData)[(userId, "avatar") := avatar]
                && (raised <==> userId in old(db.players))
                && (raised ==> reply.None? && db.players == old(db.players) && db.creationStates == old(db.creationStates))
                && (!raised ==>
                      && reply == Some(WelcomeReply)
                      && db.players == old(db.players)[userId := stats.(currentMap := StartMap, avatar := Some(avatar))]
                      && db.creationStates == old(db.creationStates) - {userId})
    {
      var route := RouteMessage(CheckAccess(whitelist, groupId), db.GetPlayerCreationState(userId), text, hasImage);
      match route
      case Ignore =>
        return false, None;
      case NameInput(name) =>
        reply := creation.HandlePlayerNameInput(userId, name);
        raised := false;
      case AvatarInput =>
        raised, reply := creation.HandlePlayerAvatarInput(userId, true, base64, file, stats);
    }
  }
}
