/** The pure cores of the leaderboard controller: the global and the
    university/department leaderboards (sorted, truncated, ranked by
    position), a user's rank (one plus the number of users with strictly more
    points) with the points still needed for the next level, the active
    challenges, and joining a challenge at most once. */
module LeaderboardController {
  import opened Wrappers
  import opened Seqs
  import opened Models
  import Client = ClientCalculator

  // ---------------------------------------------------------------------------
  // Leaderboards
  // ---------------------------------------------------------------------------

  /** The `sortBy` field. Sorting by a field the profiles do not have leaves
      every key equal, which `ByOtherField` stands for. */
  datatype SortKey = ByPoints | ByLevel | ByDailyScore | ByTotalCarbonFootprint | ByOtherField

  function PointsKey(u: User): real { u.points as real }
  function LevelKey(u: User): real { u.level as real }
  function DailyScoreKey(u: User): real { u.dailyScore as real }
  function FootprintKey(u: User): real { u.totalCarbonFootprint }
  function NoKey(u: User): real { 0.0 }

  /** The key a `sortBy` value sorts on. */
  function KeyOf(k: SortKey): User -> real {
    match k
    case ByPoints => PointsKey
    case ByLevel => LevelKey
    case ByDailyScore => DailyScoreKey
    case ByTotalCarbonFootprint => FootprintKey
    case ByOtherField => NoKey
  }

  /** A leaderboard row: the position-based rank and the profile. */
  datatype Ranked = Ranked(rank: nat, user: User)

  /** Row i carries rank i + 1: the rank is the position, ties included. */
  ghost predicate RankedByPosition(r: seq<Ranked>) {
    forall i :: 0 <= i < |r| ==> r[i].rank == i + 1
  }

  function UsersOf(r: seq<Ranked>): (s: seq<User>)
    ensures |s| == |r|
    ensures forall i :: 0 <= i < |r| ==> s[i] == r[i].user
  {
    seq(|r|, i requires 0 <= i < |r| => r[i].user)
  }

  /** `leaderboard.map((user, index) => ({ rank: index + 1, ... }))`. */
  function WithRanks(s: seq<User>): (r: seq<Ranked>)
    ensures RankedByPosition(r) && UsersOf(r) == s
  {
    var r := seq(|s|, i requires 0 <= i < |s| => Ranked(i + 1, s[i]));
    assert UsersOf(r) == s;
    r
  }

  /** Every user left off `top`, counting duplicates, has a key no greater
      than anyone on it. */
  ghost predicate NoneLeftAbove(top: seq<User>, pool: seq<User>, key: User -> real) {
    forall v :: multiset(top)[v] < multiset(pool)[v] ==>
      forall i :: 0 <= i < |top| ==> key(v) <= key(top[i])
  }

  /** A prefix of a descending permutation of `pool` leaves nobody out who
      should be in it. */
  lemma PrefixOfSortedIsTop(pool: seq<User>, key: User -> real, sorted: seq<User>, m: nat)
    requires multiset(sorted) == multiset(pool) && SortedDesc(sorted, key) && m <= |sorted|
    ensures NoneLeftAbove(sorted[..m], pool, key)
  {
    var top := sorted[..m];
    assert sorted == top + sorted[m..];
    forall v | multiset(top)[v] < multiset(pool)[v]
      ensures forall i :: 0 <= i < |top| ==> key(v) <= key(top[i])
    {
      assert multiset(sorted) == multiset(top) + multiset(sorted[m..]);
      assert v in sorted[m..];
      var j :| m <= j < |sorted| && sorted[j] == v;
    }
  }

  /** A prefix of a descending permutation of `pool` takes each user at most
      as often as `pool` holds it, and is itself descending. */
  lemma PrefixOfSortedFromPool(pool: seq<User>, key: User -> real, sorted: seq<User>, m: nat)
    requires multiset(sorted) == multiset(pool) && SortedDesc(sorted, key) && m <= |sorted|
    ensures multiset(sorted[..m]) <= multiset(pool)
    ensures forall i :: 0 <= i < m ==> sorted[..m][i] in pool
    ensures forall i, j :: 0 <= i < j < m ==> key(sorted[..m][i]) >= key(sorted[..m][j])
  {
    assert sorted == sorted[..m] + sorted[m..];
    forall i | 0 <= i < m
      ensures sorted[..m][i] in pool
    {
      assert sorted[..m][i] in multiset(sorted);
    }
  }

  /** The first `limit` users of `pool` by `key` descending (0 = no limit). */
  function Top(pool: seq<User>, key: User -> real, limit: nat): (top: seq<User>)
    ensures |top| == if limit == 0 || |pool| <= limit then |pool| else limit
    ensures top == SortDesc(pool, key)[..|top|]
    ensures multiset(top) <= multiset(pool)
    ensures forall i :: 0 <= i < |top| ==> top[i] in pool
    ensures forall i, j :: 0 <= i < j < |top| ==> key(top[i]) >= key(top[j])
    ensures NoneLeftAbove(top, pool, key)
  {
    var sorted := SortDesc(pool, key);
    var t := Take(sorted, limit);
    assert t == sorted[..|t|];
    PrefixOfSortedIsTop(pool, key, sorted, |t|);
    PrefixOfSortedFromPool(pool, key, sorted, |t|);
    t
  }

  /** The shared shape of every leaderboard: `pool` sorted by `key`
      descending, cut to `limit` (0 = no limit), ranked 1, 2, 3, ... */
  function Board(pool: seq<User>, key: User -> real, limit: nat): (r: seq<Ranked>)
    ensures |r| == if limit == 0 || |pool| <= limit then |pool| else limit
    ensures RankedByPosition(r)
    ensures forall i :: 0 <= i < |r| ==> r[i].user in pool
    ensures multiset(UsersOf(r)) <= multiset(pool)
    ensures forall i, j :: 0 <= i < j < |r| ==> key(r[i].user) >= key(r[j].user)
    ensures UsersOf(r) == SortDesc(pool, key)[..|r|]
    ensures NoneLeftAbove(UsersOf(r), pool, key)
  {
    var r := WithRanks(Top(pool, key, limit));
    RowsOfTop(pool, key, limit);
    r
  }

  /** The rows of a board come from its pool, highest key first. */
  lemma RowsOfTop(pool: seq<User>, key: User -> real, limit: nat)
    ensures var r := WithRanks(Top(pool, key, limit));
            && (forall i :: 0 <= i < |r| ==> r[i].user in pool)
            && (forall i, j :: 0 <= i < j < |r| ==> key(r[i].user) >= key(r[j].user))
  {
    var top := Top(pool, key, limit);
    var r := WithRanks(top);
    forall i | 0 <= i < |r|
      ensures r[i].user == top[i]
    {
      assert r[i].user == UsersOf(r)[i];
    }
  }

  /** The global board's default size. */
  const DefaultLimit: nat := 50

  /** The university and department boards' default size. */
  const AffiliationDefaultLimit: nat := 30

  /** The board's default sort key. */
  const DefaultSortKey: SortKey := ByPoints

  /** `getLeaderboard`: all users by `sortBy` (points by default) descending,
      at most `limit`. */
  function GetLeaderboard(users: seq<User>, sortBy: Option<SortKey>, limit: Option<nat>): (r: seq<Ranked>)
    ensures var n := limit.GetOr(DefaultLimit);
            |r| == if n == 0 || |users| <= n then |users| else n
    ensures RankedByPosition(r)
    ensures forall i :: 0 <= i < |r| ==> r[i].user in users
    ensures multiset(UsersOf(r)) <= multiset(users)
    ensures var key := KeyOf(sortBy.GetOr(DefaultSortKey));
            forall i, j :: 0 <= i < j < |r| ==> key(r[i].user) >= key(r[j].user)
    ensures NoneLeftAbove(UsersOf(r), users, KeyOf(sortBy.GetOr(DefaultSortKey)))
  {
    var key := KeyOf(sortBy.GetOr(DefaultSortKey));
    Board(users, key, limit.GetOr(DefaultLimit))
  }

  function AtUniversity(university: string): User -> bool {
    (u: User) => u.university == university
  }

  function InDepartment(department: string): User -> bool {
    (u: User) => u.department == department
  }

  /** The board of the users selected by `member`, by points: the shape both
      affiliation leaderboards share. */
  function MembersBoard(users: seq<User>, member: User -> bool, limit: nat): (r: seq<Ranked>)
    ensures RankedByPosition(r)
    ensures forall i :: 0 <= i < |r| ==> r[i].user in users && member(r[i].user)
    ensures forall i, j :: 0 <= i < j < |r| ==> r[i].user.points >= r[j].user.points
    ensures var members := Count(users, member);
            |r| == if limit == 0 || members <= limit then members else limit
    ensures multiset(UsersOf(r)) <= multiset(Filter(users, member))
    ensures NoneLeftAbove(UsersOf(r), Filter(users, member), PointsKey)
  {
    var r := Board(Filter(users, member), PointsKey, limit);
    MembersBoardSelects(users, member, limit);
    MembersBoardByPoints(users, member, limit);
    r
  }

  /** Every row of a members' board is a selected user. */
  lemma MembersBoardSelects(users: seq<User>, member: User -> bool, limit: nat)
    ensures var r := Board(Filter(users, member), PointsKey, limit);
            forall i :: 0 <= i < |r| ==> r[i].user in users && member(r[i].user)
  {
    var pool := Filter(users, member);
    var r := Board(pool, PointsKey, limit);
    forall i | 0 <= i < |r|
      ensures r[i].user in users && member(r[i].user)
    {
      assert r[i].user in pool;
    }
  }

  /** A members' board runs by points, highest first. */
  lemma MembersBoardByPoints(users: seq<User>, member: User -> bool, limit: nat)
    ensures var r := Board(Filter(users, member), PointsKey, limit);
            forall i, j :: 0 <= i < j < |r| ==> r[i].user.points >= r[j].user.points
  {
    var r := Board(Filter(users, member), PointsKey, limit);
    forall i, j | 0 <= i < j < |r|
      ensures r[i].user.points >= r[j].user.points
    {
      assert PointsKey(r[i].user) >= PointsKey(r[j].user);
    }
  }

  /** `getUniversityLeaderboard`: only the university's users, by points. */
  function GetUniversityLeaderboard(users: seq<User>, university: string, limit: Option<nat>)
    : (r: seq<Ranked>)
    ensures RankedByPosition(r)
    ensures forall i :: 0 <= i < |r| ==> r[i].user in users && r[i].user.university == university
    ensures forall i, j :: 0 <= i < j < |r| ==> r[i].user.points >= r[j].user.points
    ensures var n := limit.GetOr(AffiliationDefaultLimit);
            var members := Count(users, AtUniversity(university));
            |r| == if n == 0 || members <= n then members else n
    ensures multiset(UsersOf(r)) <= multiset(Filter(users, AtUniversity(university)))
    ensures NoneLeftAbove(UsersOf(r), Filter(users, AtUniversity(university)), PointsKey)
  {
    var r := MembersBoard(users, AtUniversity(university), limit.GetOr(AffiliationDefaultLimit));
    UniversityBoardMembers(users, university, limit.GetOr(AffiliationDefaultLimit));
    r
  }

  lemma UniversityBoardMembers(users: seq<User>, university: string, limit: nat)
    ensures var r := MembersBoard(users, AtUniversity(university), limit);
            forall i :: 0 <= i < |r| ==> r[i].user in users && r[i].user.university == university
  {
  }

  /** `getDepartmentLeaderboard`: only the department's users, by points. */
  function GetDepartmentLeaderboard(users: seq<User>, department: string, limit: Option<nat>)
    : (r: seq<Ranked>)
    ensures RankedByPosition(r)
    ensures forall i :: 0 <= i < |r| ==> r[i].user in users && r[i].user.department == department
    ensures forall i, j :: 0 <= i < j < |r| ==> r[i].user.points >= r[j].user.points
    ensures var n := limit.GetOr(AffiliationDefaultLimit);
            var members := Count(users, InDepartment(department));
            |r| == if n == 0 || members <= n then members else n
    ensures multiset(UsersOf(r)) <= multiset(Filter(users, InDepartment(department)))
    ensures NoneLeftAbove(UsersOf(r), Filter(users, InDepartment(department)), PointsKey)
  {
    var r := MembersBoard(users, InDepartment(department), limit.GetOr(AffiliationDefaultLimit));
    DepartmentBoardMembers(users, department, limit.GetOr(AffiliationDefaultLimit));
    r
  }

  lemma DepartmentBoardMembers(users: seq<User>, department: string, limit: nat)
    ensures var r := MembersBoard(users, InDepartment(department), limit);
            forall i :: 0 <= i < |r| ==> r[i].user in users && r[i].user.department == department
  {
  }

  // ---------------------------------------------------------------------------
  // A user's rank and progress
  // ---------------------------------------------------------------------------

  /** The store's `{ points: { $gt: points } }` condition. */
  function Above(points: int): User -> bool {
    (u: User) => u.points > points
  }

  function SamePoints(points: int): User -> bool {
    (u: User) => u.points == points
  }

  /** `countDocuments({ points: { $gt: points } }) + 1`. */
  function RankOf(users: seq<User>, points: int): (r: nat)
    ensures r >= 1
  {
    Count(users, Above(points)) + 1
  }

  /** `nextLevelRequirement`, as the controller writes it: under the level
      rule it is the first point count of level + 2, one level beyond the
      next. */
  function NextLevelRequirement(level: int): (r: int)
    ensures Client.LevelFromPoints(r) == level + 2
    ensures Client.LevelFromPoints(r - 1) == level + 1
  {
    level * 100 + 100
  }

  /** `Math.max(0, requirement - points)`. */
  function PointsForNextLevel(points: int, level: int): (r: int)
    ensures r >= 0
    ensures r >= NextLevelRequirement(level) - points
    ensures r == 0 || r == NextLevelRequirement(level) - points
  {
    var gap := NextLevelRequirement(level) - points;
    if gap >= 0 then gap else 0
  }

  datatype RankInfo = RankInfo(
    name: string,
    rank: nat,
    level: int,
    points: int,
    nextLevelRequirement: int,
    pointsForNextLevel: int)

  /** `getUserRank`: 404 for an unknown user; otherwise one plus the number of
      users with strictly more points, never beyond the population size. */
  function GetUserRank(users: seq<User>, userId: UserId): (r: Result<RankInfo, ApiError>)
    ensures r.Failure? <==> FindUser(users, userId).None?
    ensures r.Failure? ==> r.error == UserNotFound
    ensures r.Success? ==>
              var u := users[FindUser(users, userId).value];
              && r.value.rank == 1 + Count(users, Above(u.points))
              && 1 <= r.value.rank <= |users|
              && r.value.name == u.name && r.value.level == u.level && r.value.points == u.points
              && r.value.nextLevelRequirement == (u.level + 1) * 100
              && r.value.pointsForNextLevel == PointsForNextLevel(u.points, u.level)
              && r.value.pointsForNextLevel >= 0
  {
    match FindUser(users, userId)
    case None => Failure(UserNotFound)
    case Some(i) =>
      var u := users[i];
      CountMissing(users, Above(u.points), i);
      Success(RankInfo(u.name, RankOf(users, u.points), u.level, u.points,
                       NextLevelRequirement(u.level), PointsForNextLevel(u.points, u.level)))
  }

  /** A user nobody outscores has rank 1. */
  lemma TopUserRanksFirst(users: seq<User>, u: User)
    requires forall i :: 0 <= i < |users| ==> users[i].points <= u.points
    ensures RankOf(users, u.points) == 1
  {
    CountNone(users, Above(u.points));
  }

  /** Equal points give equal ranks. */
  lemma EqualPointsEqualRank(users: seq<User>, a: User, b: User)
    requires a.points == b.points
    ensures RankOf(users, a.points) == RankOf(users, b.points)
  {
  }

  /** Strictly more points give a strictly better (smaller) rank. */
  lemma MorePointsBetterRank(users: seq<User>, a: User, b: User)
    requires a in users && a.points > b.points
    ensures RankOf(users, a.points) < RankOf(users, b.points)
  {
    var k :| 0 <= k < |users| && users[k] == a;
    CountWeaker(users, Above(a.points), Above(b.points));
    assert Above(b.points)(users[k]) && !Above(a.points)(users[k]);
  }

  /** Nobody else has `u`'s points. */
  ghost predicate UniquePoints(users: seq<User>, u: User) {
    Count(users, SamePoints(u.points)) == 1
  }

  /** In a points-descending sequence nobody after position `i` outscores
      the entry at `i`. */
  lemma NoneAboveAfter(s: seq<User>, i: nat)
    requires i < |s| && SortedDesc(s, PointsKey)
    ensures Count(s[i..], Above(s[i].points)) == 0
  {
    var key := PointsKey;
    forall j | 0 <= j < |s[i..]|
      ensures !Above(s[i].points)(s[i..][j])
    {
      assert s[i..][j] == s[i + j];
      assert key(s[i]) >= key(s[i + j]);
    }
    CountNone(s[i..], Above(s[i].points));
  }

  /** In a points-descending sequence where nobody else has the points of the
      entry at `i`, everybody before `i` outscores it. */
  lemma AllAboveBefore(s: seq<User>, i: nat)
    requires i < |s| && SortedDesc(s, PointsKey)
    requires Count(s, SamePoints(s[i].points)) == 1
    ensures Count(s[..i], Above(s[i].points)) == i
  {
    var key := PointsKey;
    var p := s[i].points;
    CountSplit(s, i, SamePoints(p));
    CountWitness(s[i..], SamePoints(p), s[i]);
    forall j | 0 <= j < i
      ensures Above(p)(s[..i][j])
    {
      assert s[..i][j] == s[j];
      assert key(s[j]) >= key(s[i]);
      if s[j].points == p {
        CountWitness(s[..i], SamePoints(p), s[j]);
        assert false;
      }
    }
    CountAll(s[..i], Above(p));
  }

  /** In the points-sorted population, the entry at position `i` whose points
      nobody else shares has rank `i + 1` under both rules. */
  lemma PositionMatchesCount(users: seq<User>, i: nat)
    requires i < |users|
    requires UniquePoints(users, SortDesc(users, PointsKey)[i])
    ensures RankOf(users, SortDesc(users, PointsKey)[i].points) == i + 1
  {
    var key := PointsKey;
    var s := SortDesc(users, key);
    var p := s[i].points;
    CountSortDesc(users, key, Above(p));
    CountSortDesc(users, key, SamePoints(p));
    CountSplit(s, i, Above(p));
    NoneAboveAfter(s, i);
    AllAboveBefore(s, i);
  }

  /** All points differ. */
  ghost predicate DistinctPoints(users: seq<User>) {
    forall v :: v in users ==> Count(users, SamePoints(v.points)) == 1
  }

  /** With all points distinct, the unlimited points leaderboard gives every
      user the same rank as the strictly-greater count. */
  lemma RanksAgreeWithoutTies(users: seq<User>)
    requires DistinctPoints(users)
    ensures var board := GetLeaderboard(users, Some(ByPoints), Some(0));
            forall i :: 0 <= i < |board| ==> board[i].rank == RankOf(users, board[i].user.points)
  {
    var board := GetLeaderboard(users, Some(ByPoints), Some(0));
    UnlimitedBoardIsSorted(users);
    forall i | 0 <= i < |board|
      ensures board[i].rank == RankOf(users, board[i].user.points)
    {
      PositionMatchesCount(users, i);
    }
  }

  /** Without a limit, row i of the points board is the i-th user sorted. */
  lemma UnlimitedBoardIsSorted(users: seq<User>)
    ensures var board := GetLeaderboard(users, Some(ByPoints), Some(0));
            var s := SortDesc(users, PointsKey);
            |board| == |s|
            && forall i :: 0 <= i < |board| ==> board[i].rank == i + 1 && board[i].user == s[i]
  {
    var board := GetLeaderboard(users, Some(ByPoints), Some(0));
    var s := SortDesc(users, PointsKey);
    forall i | 0 <= i < |board|
      ensures board[i].rank == i + 1 && board[i].user == s[i]
    {
      assert board[i].user == UsersOf(board)[i] == s[i];
    }
  }

  /** Under a tie the two rules disagree: on the default board (by points) of
      just two users with equal points, they sit at positions 1 and 2, while
      both have rank 1 by count. */
  lemma TiedUsersDisagree(a: User, b: User)
    requires a.points == b.points
    ensures var board := GetLeaderboard([a, b], None, None);
            && |board| == 2 && board[0].rank == 1 && board[1].rank == 2
            && RankOf([a, b], a.points) == 1 && RankOf([a, b], b.points) == 1
  {
    TwoUsersTakeTwoPositions(a, b);
    TopUserRanksFirst([a, b], a);
  }

  /** Any two users fill positions 1 and 2 of their default board. */
  lemma TwoUsersTakeTwoPositions(a: User, b: User)
    ensures var board := GetLeaderboard([a, b], None, None);
            |board| == 2 && board[0].rank == 1 && board[1].rank == 2
  {
    var board := GetLeaderboard([a, b], None, None);
    assert RankedByPosition(board);
  }

  /** Worked value: 50 points at level 1 are 150 points away. */
  lemma NextLevelExample()
    ensures NextLevelRequirement(1) == 200
    ensures PointsForNextLevel(50, 1) == 150
  {
  }

  /** As written, the requirement is where level + 2 begins, while level + 1
      begins 100 points earlier. */
  lemma RequirementIsTwoLevelsUp(level: int)
    ensures Client.LevelFromPoints(NextLevelRequirement(level)) == level + 2
    ensures Client.LevelFromPoints(NextLevelRequirement(level) - Client.PointsPerLevel) == level + 1
  {
  }

  /** Hence for a profile whose level matches its points, the remaining gap is
      always between 101 and 200 points. */
  lemma ConsistentProfileGap(points: int)
    ensures var level := Client.LevelFromPoints(points);
            101 <= PointsForNextLevel(points, level) <= 200
  {
  }

  // ---------------------------------------------------------------------------
  // Challenges
  // ---------------------------------------------------------------------------

  /** `startDate <= today <= endDate`; a missing date never matches. */
  function ActiveOn(today: Time): Challenge -> bool {
    (c: Challenge) => c.startDate.Some? && c.endDate.Some?
                      && c.startDate.value <= today <= c.endDate.value
  }

  /** `getActiveChallenges`: the challenges running today, both ends included. */
  function GetActiveChallenges(challenges: seq<Challenge>, today: Time): (r: seq<Challenge>)
    ensures forall c :: c in r <==>
              c in challenges && c.startDate.Some? && c.endDate.Some?
              && c.startDate.value <= today <= c.endDate.value
    ensures multiset(r) <= multiset(challenges)
    ensures forall c :: c in r ==> multiset(r)[c] == multiset(challenges)[c]
  {
    var p := ActiveOn(today);
    assert forall c :: p(c) <==> c.startDate.Some? && c.endDate.Some?
                                 && c.startDate.value <= today <= c.endDate.value;
    Filter(challenges, p)
  }

  /** `participants.some(p => p.userId === userId)`. */
  predicate HasJoined(c: Challenge, userId: UserId) {
    exists k :: 0 <= k < |c.participants| && c.participants[k].userId == userId
  }

  /** The entry a join appends. */
  function Entry(userId: UserId): Participant {
    Participant(userId, 0.0, false, None)
  }

  /** `joinChallenge`: 404 for an unknown challenge, 400 when the user has
      already joined; otherwise one fresh entry is appended to that
      challenge and nothing else changes. */
  function JoinChallenge(challenges: seq<Challenge>, challengeId: ChallengeId, userId: UserId)
    : (r: Result<seq<Challenge>, ApiError>)
    ensures FindChallenge(challenges, challengeId).None? ==> r == Failure(ChallengeNotFound)
    ensures var i := FindChallenge(challenges, challengeId);
            i.Some? && HasJoined(challenges[i.value], userId) ==> r == Failure(AlreadyJoined)
    ensures r.Success? <==>
              var i := FindChallenge(challenges, challengeId);
              i.Some? && !HasJoined(challenges[i.value], userId)
    ensures r.Success? ==>
              var i := FindChallenge(challenges, challengeId).value;
              var ps := challenges[i].participants;
              && |r.value| == |challenges|
              && r.value[i].participants == ps + [Entry(userId)]
              && r.value[i].(participants := ps) == challenges[i]
              && (forall j :: 0 <= j < |challenges| && j != i ==> r.value[j] == challenges[j])
  {
    match FindChallenge(challenges, challengeId)
    case None => Failure(ChallengeNotFound)
    case Some(i) =>
      var c := challenges[i];
      if HasJoined(c, userId) then Failure(AlreadyJoined)
      else Success(challenges[i := c.(participants := c.participants + [Entry(userId)])])
  }

  /** No user appears twice among a challenge's participants. */
  predicate NoRepeatedParticipant(c: Challenge) {
    forall j, k :: 0 <= j < k < |c.participants| ==> c.participants[j].userId != c.participants[k].userId
  }

  /** Joining keeps every challenge free of repeated participants, and a
      second join by the same user is refused. */
  lemma JoinKeepsParticipantsUnique(challenges: seq<Challenge>, challengeId: ChallengeId, userId: UserId)
    requires forall j :: 0 <= j < |challenges| ==> NoRepeatedParticipant(challenges[j])
    ensures var r := JoinChallenge(challenges, challengeId, userId);
            r.Success? ==>
              && (forall j :: 0 <= j < |r.value| ==> NoRepeatedParticipant(r.value[j]))
              && JoinChallenge(r.value, challengeId, userId) == Failure(AlreadyJoined)
  {
    var r := JoinChallenge(challenges, challengeId, userId);
    if r.Success? {
      var i := FindChallenge(challenges, challengeId).value;
      var c' := r.value[i];
      assert c'.participants[|c'.participants| - 1].userId == userId;
      assert HasJoined(c', userId);
      assert forall j :: 0 <= j < |challenges| ==> r.value[j].id == challenges[j].id;
      FindChallengeAfterUpdate(challenges, r.value, challengeId);
    }
  }

  /** Updating challenges without touching their ids keeps lookups where they were. */
  lemma FindChallengeAfterUpdate(before: seq<Challenge>, after: seq<Challenge>, id: ChallengeId)
    requires |before| == |after|
    requires forall j :: 0 <= j < |before| ==> after[j].id == before[j].id
    ensures FindChallenge(after, id) == FindChallenge(before, id)
  {
    FindByAfterUpdate(before, after, ChallengeKey, id);
  }
}
