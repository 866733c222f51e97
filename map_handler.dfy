/**
 * The map commands of `handlers/map_handler.py`. `移动 <地图名>` moves a player to a map
 * listed among the current map's neighbours (`相邻区域`); the map view lists the other
 * players standing on the requester's map.
 */
module MapHandler {
  import opened Wrappers
  import opened Text
  import opened DataManager
  import opened ConfigManager
  import Ordering

  const MoveFormatReply: string := "指令格式错误！请使用「移动 <地图名>」。"
  const BrokenMapReply: string := "当前地图数据异常，请联系管理员。"

  function UnknownMapReply(target: string): string {
    "不存在名为「" + target + "」的地图。"
  }

  function NotAdjacentReply(target: string): string {
    "无法直接前往「" + target + "」，该地图与当前位置不相邻。"
  }

  function MovedReply(from: string, target: string): string {
    "你已从「" + from + "」移动到「" + target + "」。"
  }

  /**
   * Python's `target in info["相邻区域"]`: list membership for a list of names, substring
   * search for a single string.
   */
  predicate Adjacent(info: Info, target: string) {
    && "相邻区域" in info
    && match info["相邻区域"]
       case List(xs) => Str(target) in xs
       case Str(s) => Contains(s, target)
       case _ => false
  }

  /** What a move request comes to: the moved player and the reply, or only a reply. */
  datatype MoveOutcome = Moved(player: Player, reply: string) | Stayed(reply: string)

  /**
   * The rule of `handle_move`: an empty target, a current map or a target missing from the
   * world map, or a target not adjacent to the current map each leave the player where they
   * are; otherwise only the player's map changes, to the target.
   */
  function MoveOutcomeOf(config: ConfigManager, player: Player, target: string): (o: MoveOutcome)
    reads config
    ensures o.Moved? <==> target != "" && config.GetMapByName(player.currentMap).Some?
                          && config.GetMapByName(target).Some?
                          && Adjacent(config.GetMapByName(player.currentMap).value.1, target)
    ensures o.Moved? ==> o.player == player.(currentMap := target) && o.reply == MovedReply(player.currentMap, target)
    ensures target == "" ==> o == Stayed(MoveFormatReply)
    ensures target != "" && config.GetMapByName(player.currentMap).None? ==> o == Stayed(BrokenMapReply)
    ensures target != "" && config.GetMapByName(player.currentMap).Some? && config.GetMapByName(target).None? ==>
              o == Stayed(UnknownMapReply(target))
    ensures target != "" && config.GetMapByName(player.currentMap).Some? && config.GetMapByName(target).Some?
            && !Adjacent(config.GetMapByName(player.currentMap).value.1, target) ==>
              o == Stayed(NotAdjacentReply(target))
  {
    if target == "" then Stayed(MoveFormatReply)
    else
      match config.GetMapByName(player.currentMap)
      case None => Stayed(BrokenMapReply)
      case Some(current) =>
        if config.GetMapByName(target).None? then Stayed(UnknownMapReply(target))
        else if !Adjacent(current.1, target) then Stayed(NotAdjacentReply(target))
        else Moved(player.(currentMap := target), MovedReply(player.currentMap, target))
  }

  /** A move always lands on a map of the world map section. */
  lemma MoveLandsOnKnownMap(config: ConfigManager, player: Player, target: string)
    requires config.worldMap.Some? && config.worldMapNameToId == MapIndex(config.worldMap.value)
    requires MoveOutcomeOf(config, player, target).Moved?
    ensures target in config.worldMap.value
    ensures MoveOutcomeOf(config, player, target).player.currentMap in config.worldMap.value
  {
    MapLookupAfterLoad(config, target);
  }

  /** With a list of neighbours, a move succeeds exactly to a listed, known map. */
  lemma MoveAlongList(config: ConfigManager, player: Player, target: string, neighbours: seq<Value>)
    requires config.GetMapByName(player.currentMap).Some?
    requires var info := config.GetMapByName(player.currentMap).value.1;
             "相邻区域" in info && info["相邻区域"] == List(neighbours)
    ensures MoveOutcomeOf(config, player, target).Moved? <==>
              target != "" && Str(target) in neighbours && config.GetMapByName(target).Some?
  {
  }

  /** `user_id[-4:]`: the last four characters, or the whole id when it is shorter. */
  function LastFour(s: string): (r: string)
    ensures |r| == if |s| < 4 then |s| else 4
    ensures r == s[|s| - |r|..]
  {
    if |s| <= 4 then s else s[|s| - 4..]
  }

  /** `p.get_level(config) + "-" + p.user_id[-4:]`, the level name given by `level`. */
  function Label(level: Player -> string, p: Player): string {
    level(p) + "-" + LastFour(p.userId)
  }

  /** The players of a list other than the requester, in list order. */
  function Others(ps: seq<Player>, userId: string): (r: seq<Player>)
    ensures forall p :: p in r <==> p in ps && p.userId != userId
    ensures |r| <= |ps|
    ensures multiset(r) <= multiset(ps)
  {
    if |ps| == 0 then []
    else
      assert ps == [ps[0]] + ps[1..];
      (if ps[0].userId != userId then [ps[0]] else []) + Others(ps[1..], userId)
  }

  /** The labels of a list of players, one per player. */
  function Labels(level: Player -> string, ps: seq<Player>): (r: seq<string>)
    ensures |r| == |ps|
    ensures forall i :: 0 <= i < |ps| ==> r[i] == Label(level, ps[i])
  {
    if |ps| == 0 then [] else [Label(level, ps[0])] + Labels(level, ps[1..])
  }

  /** Leaving out the requester a second time changes nothing. */
  lemma {:induction false} OthersIdempotent(ps: seq<Player>, userId: string)
    ensures Others(Others(ps, userId), userId) == Others(ps, userId)
  {
    if |ps| > 0 {
      OthersIdempotent(ps[1..], userId);
      if ps[0].userId != userId {
        assert Others(ps, userId) == [ps[0]] + Others(ps[1..], userId);
        assert Others(ps, userId)[1..] == Others(ps[1..], userId);
      } else {
        assert Others(ps, userId) == Others(ps[1..], userId);
      }
    }
  }

  class MapHandler {
    const db: DataBase
    const config: ConfigManager

    constructor (db: DataBase, config: ConfigManager)
      ensures this.db == db && this.config == config
    {
      this.db := db;
      this.config := config;
    }

    /**
     * `handle_move`: applies `MoveOutcomeOf`, writing the moved clone through `update_player`,
     * which changes nothing for a player without a row.
     */
    method HandleMove(player: Player, target: string) returns (reply: string)
      requires db.Valid()
      modifies db`players
      ensures db.Valid()
      ensures reply == MoveOutcomeOf(config, player, target).reply
      ensures MoveOutcomeOf(config, player, target).Stayed? ==> db.players == old(db.players)
      ensures MoveOutcomeOf(config, player, target).Moved? ==>
                db.players == if player.userId in old(db.players)
                              then old(db.players)[player.userId := player.(currentMap := target)]
                              else old(db.players)
    {
      var outcome := MoveOutcomeOf(config, player, target);
      if outcome.Moved? {
        db.UpdatePlayer(outcome.player);
      }
      reply := outcome.reply;
    }

    /**
     * `handle_map_view`'s lists: refused when the requester's map is not in the world map;
     * otherwise the players standing on it except the requester, and their labels.
     */
    method HandleMapView(player: Player, level: Player -> string) returns (known: bool, others: seq<Player>, names: seq<string>)
      requires db.Valid()
      ensures known <==> config.GetMapByName(player.currentMap).Some?
      ensures !known ==> others == [] && names == []
      ensures known ==> forall p :: p in others <==>
                          p.userId in db.players && db.players[p.userId] == p
                          && p.currentMap == player.currentMap && p.userId != player.userId
      ensures forall p :: p in others ==> p.userId != player.userId
      ensures forall i, j :: 0 <= i < j < |others| ==> others[i].userId != others[j].userId
      ensures names == Labels(level, others)
    {
      if config.GetMapByName(player.currentMap).None? {
        return false, [], [];
      }
      var here := db.GetPlayersInMap(player.currentMap);
      known, others := true, Others(here, player.userId);
      Ordering.DistinctBySub(here, others, (p: Player) => p.userId);
      names := Labels(level, others);
    }
  }
}
