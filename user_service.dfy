/**
 * `core/services/user_service.py`: finding or creating a user, and the one-time talent
 * (spiritual root) detection that also names the cultivator. The random draws are inputs:
 * `draw` is `random.randint(1, 100)`, and each `random.choice` is an index taken modulo the
 * length of the list it chooses from.
 */
module UserService {
  import opened Wrappers
  import opened Models
  import opened UserRepo

  /** The talent types of the source's list, in its order, grouped by how many roots each has. */
  const SingleRoots: seq<string> := ["金", "木", "水", "火", "土"]
  const DoubleRoots: seq<string> := [
    "金火", "木火", "水火", "土火", "金水", "木水", "土水", "金木", "火木", "土木", "金土", "火土", "水土"]
  const TripleRoots: seq<string> := ["金火水", "金火土", "金水土", "火水土", "金木火", "金木水", "金木土", "木火土", "木水土"]
  const QuadrupleRoots: seq<string> := ["金木水火", "金木水土", "金木火土", "金水火土", "木水火土"]
  const FiveElements: string := "五行齐全"

  /** The talent types, single roots first and 五行齐全 last. */
  const TalentTypes: seq<string> := SingleRoots + DoubleRoots + TripleRoots + QuadrupleRoots + [FiveElements]

  const DaoNamePrefixes: seq<string> := [
    "无尘", "青云", "玄真", "清虚", "明心",
    "静虚", "天行", "浩然", "凌霄", "紫阳",
    "太初", "混元", "纯阳", "太阴", "九霄",
    "碧落", "苍穹", "逍遥", "无极", "太虚"]

  const DaoNameSuffixes: seq<string> := [
    "真人", "散人", "居士", "道人", "上人",
    "仙子", "圣女", "天师", "上仙", "真君",
    "帝君", "天尊", "圣人", "大帝", "至尊"]

  /** The draw ranges of the single-, double-, triple- and quadruple-root buckets and of 五行齐全. */
  const TalentWeights: seq<(int, int)> := [(10, 30), (31, 60), (61, 80), (81, 95), (96, 100)]

  /** `random.choice(pool)` with the choice given as an index. */
  function Choice(pool: seq<string>, pick: nat): (r: string)
    requires |pool| > 0
    ensures r in pool
  {
    pool[pick % |pool|]
  }

  /**
   * The pool each bucket chooses from as the source slices it: `[:5]`, `[5:14]`, `[14:19]`
   * and `[19:24]`, keyed by the upper end of the bucket's range.
   */
  function PoolAsWritten(end: int): (pool: seq<string>)
    requires end in {30, 60, 80, 95}
    ensures |pool| > 0
  {
    if end == 30 then TalentTypes[..5]
    else if end == 60 then TalentTypes[5..14]
    else if end == 80 then TalentTypes[14..19]
    else TalentTypes[19..24]
  }

  /** The pool of talents with as many roots as the bucket's comment says. */
  function Pool(end: int): (pool: seq<string>)
    requires end in {30, 60, 80, 95}
    ensures |pool| > 0
  {
    if end == 30 then SingleRoots
    else if end == 60 then DoubleRoots
    else if end == 80 then TripleRoots
    else QuadrupleRoots
  }

  /** The corrected pools are the slices `[:5]`, `[5:18]`, `[18:27]` and `[27:32]` of the talent list. */
  lemma PoolsAreSlices()
    ensures Pool(30) == TalentTypes[..5] && Pool(60) == TalentTypes[5..18]
    ensures Pool(80) == TalentTypes[18..27] && Pool(95) == TalentTypes[27..32]
    ensures TalentTypes[|TalentTypes| - 1] == FiveElements
  {
  }

  /** How many roots the bucket ending at `end` is meant to hand out. */
  function RootsOf(end: int): nat
    requires end in {30, 60, 80, 95}
  {
    if end == 30 then 1 else if end == 60 then 2 else if end == 80 then 3 else 4
  }

  /** The "三灵根" (triple-root) bucket as written can hand out 土木, a double root. */
  lemma TripleRootBucketAsWrittenYieldsDoubleRoot()
    ensures Choice(PoolAsWritten(80), 0) == "土木"
    ensures |Choice(PoolAsWritten(80), 0)| == 2 != RootsOf(80)
  {
  }

  /** The "四灵根" (quadruple-root) bucket as written holds only triple roots. */
  lemma QuadrupleRootBucketAsWrittenHoldsNoQuadrupleRoot()
    ensures forall t :: t in PoolAsWritten(95) ==> |t| == 3
  {
    assert PoolAsWritten(95) == TripleRoots[1..6];
  }

  /** Every talent of a corrected pool has exactly as many roots (characters) as its bucket promises. */
  lemma PoolsMatchRootCounts(end: int)
    requires end in {30, 60, 80, 95}
    ensures forall t :: t in Pool(end) ==> |t| == RootsOf(end)
  {
  }

  /** The talent a draw yields: the bucket whose range holds the draw, or "" when none does. */
  function TalentFor(draw: int, pick: nat): (t: string)
    ensures 1 <= draw <= 9 ==> t == ""
    ensures 96 <= draw <= 100 ==> t == FiveElements
    ensures 10 <= draw <= 30 ==> t in SingleRoots
    ensures 31 <= draw <= 60 ==> t in Pool(60)
    ensures 61 <= draw <= 80 ==> t in Pool(80)
    ensures 81 <= draw <= 95 ==> t in Pool(95)
    ensures t == "" || t in TalentTypes
  {
    if 10 <= draw <= 30 then Choice(Pool(30), pick)
    else if 31 <= draw <= 60 then Choice(Pool(60), pick)
    else if 61 <= draw <= 80 then Choice(Pool(80), pick)
    else if 81 <= draw <= 95 then Choice(Pool(95), pick)
    else if 96 <= draw <= 100 then TalentTypes[|TalentTypes| - 1]
    else ""
  }

  /**
   * The talent a draw yields as the code slices the pools: the same buckets as `TalentFor`,
   * choosing from `PoolAsWritten`. Outside the draws of 31-95 the two agree.
   */
  function TalentAsWritten(draw: int, pick: nat): (t: string)
    ensures 1 <= draw <= 9 ==> t == ""
    ensures 96 <= draw <= 100 ==> t == FiveElements
    ensures 10 <= draw <= 30 ==> t in SingleRoots
    ensures 31 <= draw <= 60 ==> t in PoolAsWritten(60)
    ensures 61 <= draw <= 80 ==> t in PoolAsWritten(80)
    ensures 81 <= draw <= 95 ==> t in PoolAsWritten(95)
    ensures !(31 <= draw <= 95) ==> t == TalentFor(draw, pick)
    ensures t == "" || t in TalentTypes
  {
    if 10 <= draw <= 30 then Choice(PoolAsWritten(30), pick)
    else if 31 <= draw <= 60 then Choice(PoolAsWritten(60), pick)
    else if 61 <= draw <= 80 then Choice(PoolAsWritten(80), pick)
    else if 81 <= draw <= 95 then Choice(PoolAsWritten(95), pick)
    else if 96 <= draw <= 100 then TalentTypes[|TalentTypes| - 1]
    else ""
  }

  /** As written, the double-root bucket hands out double roots, but never the last four of them. */
  lemma DoubleRootBucketAsWrittenMissesFour(draw: int, pick: nat)
    requires 31 <= draw <= 60
    ensures TalentAsWritten(draw, pick) in DoubleRoots
    ensures TalentAsWritten(draw, pick) !in DoubleRoots[9..]
  {
    assert PoolAsWritten(60) == DoubleRoots[..9];
    var t := TalentAsWritten(draw, pick);
    assert t == DoubleRoots[pick % 9];
    forall k | 9 <= k < |DoubleRoots| ensures DoubleRoots[k] != t {
    }
  }

  /** The same draw gives different talents as written and as corrected. */
  lemma AsWrittenDiffersFromCorrected()
    ensures TalentAsWritten(70, 0) == "土木" && TalentFor(70, 0) == "金火水"
  {
  }

  /** A draw in a bucket yields a talent with as many roots as the bucket's name says. */
  lemma TalentHasBucketRootCount(draw: int, pick: nat)
    requires 10 <= draw <= 95
    ensures |TalentFor(draw, pick)| == if draw <= 30 then 1 else if draw <= 60 then 2 else if draw <= 80 then 3 else 4
  {
    var end := if draw <= 30 then 30 else if draw <= 60 then 60 else if draw <= 80 then 80 else 95;
    PoolsMatchRootCounts(end);
  }

  /** The Daoist name: one listed prefix followed by one listed suffix. */
  function DaoName(prefixPick: nat, suffixPick: nat): (name: string)
    ensures exists i, j :: 0 <= i < |DaoNamePrefixes| && 0 <= j < |DaoNameSuffixes|
                           && name == DaoNamePrefixes[i] + DaoNameSuffixes[j]
  {
    var i := prefixPick % |DaoNamePrefixes|;
    var j := suffixPick % |DaoNameSuffixes|;
    DaoNamePrefixes[i] + DaoNameSuffixes[j]
  }

  /** The nickname after detection: the platform's, only when one is given and the user has none. */
  function NicknameAfter(current: Option<string>, platformNickname: Option<string>): (r: Option<string>)
    ensures Truthy(platformNickname) && !Truthy(current) ==> r == platformNickname
    ensures !(Truthy(platformNickname) && !Truthy(current)) ==> r == current
  {
    if Truthy(platformNickname) && !Truthy(current) then platformNickname else current
  }

  class UserService {
    const users: UserRepository

    constructor (users: UserRepository)
      ensures this.users == users
    {
      this.users := users;
    }

    /** `get_or_create_user`: creates a user only when none exists; an existing one is returned untouched. */
    method GetOrCreateUser(userId: string, nickname: Option<string>, now: int) returns (u: User)
      requires users.Valid()
      modifies users
      ensures users.Valid()
      ensures userId in old(users.rows) ==> users.rows == old(users.rows) && u == Decode(old(users.rows)[userId])
      ensures userId !in old(users.rows) ==> users.rows == old(users.rows)[userId := NewRow(old(users.nextId), userId, nickname, now)]
      ensures userId in users.rows && u == Decode(users.rows[userId])
    {
      var found := users.GetByUserId(userId);
      if found.Some? {
        return found.value;
      }
      u := users.CreateUser(userId, nickname, now);
    }

    /**
     * The loop over the draw ranges: the first range that holds the draw decides the talent,
     * chosen from the pools as the code slices them.
     */
    method DrawTalent(draw: int, pick: nat) returns (talent: string)
      ensures talent == TalentAsWritten(draw, pick)
    {
      talent := "";
      assert TalentWeights[0] == (10, 30) && TalentWeights[1] == (31, 60) && TalentWeights[2] == (61, 80);
      assert TalentWeights[3] == (81, 95) && TalentWeights[4] == (96, 100);
      var i := 0;
      while i < |TalentWeights|
        invariant 0 <= i <= |TalentWeights|
        invariant talent == ""
        invariant forall k :: 0 <= k < i ==> !(TalentWeights[k].0 <= draw <= TalentWeights[k].1)
      {
        var (start, end) := TalentWeights[i];
        if start <= draw <= end {
          if end == 30 {
            talent := Choice(PoolAsWritten(30), pick);
          } else if end == 60 {
            talent := Choice(PoolAsWritten(60), pick);
          } else if end == 80 {
            talent := Choice(PoolAsWritten(80), pick);
          } else if end == 95 {
            talent := Choice(PoolAsWritten(95), pick);
          } else {
            talent := TalentTypes[|TalentTypes| - 1];
          }
          break;
        }
        i := i + 1;
      }
    }

    /**
     * `detect_talent`: refused when the user already has a talent. Otherwise it sets the
     * nickname rule, the talent, the Daoist name, the first realm and zero cultivation, and
     * reports whether the stored row was updated.
     */
    method DetectTalent(user: User, platformNickname: Option<string>, draw: int, pick: nat,
                        prefixPick: nat, suffixPick: nat) returns (ok: bool, u: User)
      requires users.Valid()
      modifies users`rows
      ensures users.Valid()
      ensures Truthy(user.talent) ==> !ok && u == user && users.rows == old(users.rows)
      ensures !Truthy(user.talent) ==>
                && u == user.(nickname := NicknameAfter(user.nickname, platformNickname),
                              talent := Some(TalentAsWritten(draw, pick)), daoName := Some(DaoName(prefixPick, suffixPick)),
                              realm := DefaultRealm, cultivation := 0)
                && (ok <==> user.userId in old(users.rows))
                && users.rows == Updated(old(users.rows), u)
    {
      if Truthy(user.talent) {
        return false, user;
      }
      u := user;
      if Truthy(platformNickname) && !Truthy(u.nickname) {
        u := u.(nickname := platformNickname);
      }
      var talent := DrawTalent(draw, pick);
      u := u.(talent := Some(talent), daoName := Some(DaoName(prefixPick, suffixPick)), realm := DefaultRealm, cultivation := 0);
      ok := users.UpdateUser(u);
    }

    /** `update_user_nickname` */
    method UpdateUserNickname(user: User, nickname: string) returns (ok: bool, u: User)
      requires users.Valid()
      modifies users`rows
      ensures users.Valid()
      ensures u == user.(nickname := Some(nickname))
      ensures ok <==> user.userId in old(users.rows)
      ensures users.rows == Updated(old(users.rows), u)
    {
      u := user.(nickname := Some(nickname));
      ok := users.UpdateUser(u);
    }
  }
}
