/** The pure cores of the carbon controller: logging a day (which appends a
    daily log and updates the user's running total and latest score), the
    user's statistics over all their logs, and the recent-history window.
    The document store is replaced by the sequences of users and logs. */
module CarbonController {
  import opened Wrappers
  import opened JsMath
  import opened Seqs
  import opened Models
  import Server = ServerCalculator

  // ---------------------------------------------------------------------------
  // Logging a day
  // ---------------------------------------------------------------------------

  /** The new store contents and the response of a successful log. */
  datatype Logged = Logged(
    users: seq<User>,
    logs: seq<DailyLog>,
    log: DailyLog,
    footprint: Server.Footprint,
    sustainabilityScore: int)

  /** The user after one more day of `dayTotal` kg: the running total grows by
      the day, and the daily score is replaced by the day's score. */
  function Credit(u: User, dayTotal: real): (r: User)
    ensures r.totalCarbonFootprint == u.totalCarbonFootprint + dayTotal
    ensures r.dailyScore == Server.SustainabilityScore(dayTotal)
    ensures r.(totalCarbonFootprint := u.totalCarbonFootprint, dailyScore := u.dailyScore) == u
  {
    u.(totalCarbonFootprint := u.totalCarbonFootprint + dayTotal,
       dailyScore := Server.SustainabilityScore(dayTotal))
  }

  /** `logDailyActivity`: an unknown user is rejected with 404 and the store
      is left as it was (the caller keeps `users` and `logs`); otherwise the
      day's log is appended and the user's profile credited. */
  function LogDailyActivity(users: seq<User>, logs: seq<DailyLog>, userId: UserId, a: Activity, now: Time)
    : (r: Result<Logged, ApiError>)
    ensures r.Failure? <==> FindUser(users, userId).None?
    ensures r.Failure? ==> r.error == UserNotFound && r.error.Status() == 404
    ensures r.Success? ==>
              var i := FindUser(users, userId).value;
              var out := r.value;
              && out.logs == logs + [out.log]
              && out.log == DailyLog(userId, a.transportation, a.meals, a.digitalWaste,
                                     out.footprint.totalEmissions, now)
              && out.footprint == Server.DailyFootprint(a)
              && |out.users| == |users|
              && out.users[i].totalCarbonFootprint == users[i].totalCarbonFootprint + out.log.totalCarbonForDay
              && out.users[i].dailyScore == Server.SustainabilityScore(out.log.totalCarbonForDay)
              && out.users[i].(totalCarbonFootprint := users[i].totalCarbonFootprint,
                               dailyScore := users[i].dailyScore) == users[i]
              && out.sustainabilityScore == out.users[i].dailyScore
              && (forall j :: 0 <= j < |users| && j != i ==> out.users[j] == users[j])
  {
    match FindUser(users, userId)
    case None => Failure(UserNotFound)
    case Some(i) =>
      var fp := Server.DailyFootprint(a);
      var log := DailyLog(userId, a.transportation, a.meals, a.digitalWaste, fp.totalEmissions, now);
      var u := Credit(users[i], fp.totalEmissions);
      Success(Logged(users[i := u], logs + [log], log, fp, u.dailyScore))
  }

  /** The day totals of a sequence of logs. */
  function Totals(logs: seq<DailyLog>): (r: seq<real>)
    ensures |r| == |logs|
    ensures forall i :: 0 <= i < |logs| ==> r[i] == logs[i].totalCarbonForDay
  {
    seq(|logs|, i requires 0 <= i < |logs| => logs[i].totalCarbonForDay)
  }

  /** Submitting `days` one after the other, day `k` at time `times[k]`. */
  function LogDays(users: seq<User>, logs: seq<DailyLog>, userId: UserId,
                   days: seq<Activity>, times: seq<Time>): Result<(seq<User>, seq<DailyLog>), ApiError>
    requires |days| == |times|
    decreases |days|
  {
    if |days| == 0 then
      if FindUser(users, userId).None? then Failure(UserNotFound) else Success((users, logs))
    else
      match LogDailyActivity(users, logs, userId, days[0], times[0])
      case Failure(e) => Failure(e)
      case Success(out) => LogDays(out.users, out.logs, userId, days[1..], times[1..])
  }

  /** Replacing a user by one with the same id does not change where any id
      is found. */
  lemma FindUserAfterUpdate(users: seq<User>, i: nat, u: User, id: UserId)
    requires i < |users| && u.id == users[i].id
    ensures FindUser(users[i := u], id) == FindUser(users, id)
  {
    FindByAfterUpdate(users, users[i := u], UserKey, id);
  }

  /** The footprint totals of a sequence of submitted days. */
  function DayTotals(days: seq<Activity>): (r: seq<real>)
    ensures |r| == |days|
    ensures forall k :: 0 <= k < |days| ==> r[k] == Server.DailyFootprint(days[k]).totalEmissions
  {
    seq(|days|, k requires 0 <= k < |days| => Server.DailyFootprint(days[k]).totalEmissions)
  }

  /** Repeated submissions are rejected exactly when the user is unknown. */
  lemma {:induction false} LogDaysRejectsUnknownUser(users: seq<User>, logs: seq<DailyLog>, userId: UserId,
                                                     days: seq<Activity>, times: seq<Time>)
    requires |days| == |times|
    ensures LogDays(users, logs, userId, days, times).Failure? <==> FindUser(users, userId).None?
    decreases |days|
  {
    if |days| > 0 {
      var step := LogDailyActivity(users, logs, userId, days[0], times[0]);
      if step.Success? {
        var i := FindUser(users, userId).value;
        FindUserAfterUpdate(users, i, step.value.users[i], userId);
        LogDaysRejectsUnknownUser(step.value.users, step.value.logs, userId, days[1..], times[1..]);
      }
    }
  }

  /** Repeated submissions append one log per day, in order, each holding
      that day's footprint total; earlier logs are untouched. */
  lemma {:induction false} LogDaysAppendsOneLogPerDay(users: seq<User>, logs: seq<DailyLog>, userId: UserId,
                                                      days: seq<Activity>, times: seq<Time>)
    requires |days| == |times|
    ensures var r := LogDays(users, logs, userId, days, times);
            r.Success? ==>
              var logs' := r.value.1;
              && |logs'| == |logs| + |days|
              && logs'[..|logs|] == logs
              && Totals(logs'[|logs|..]) == DayTotals(days)
    decreases |days|
  {
    if |days| > 0 {
      var step := LogDailyActivity(users, logs, userId, days[0], times[0]);
      if step.Success? {
        var out := step.value;
        LogDaysAppendsOneLogPerDay(out.users, out.logs, userId, days[1..], times[1..]);
        var r := LogDays(out.users, out.logs, userId, days[1..], times[1..]);
        if r.Success? {
          AppendTotals(logs, out.log, r.value.1, DayTotals(days[1..]));
          DayTotalsCons(days);
        }
      }
    }
  }

  lemma DayTotalsCons(days: seq<Activity>)
    requires |days| > 0
    ensures DayTotals(days) == [Server.DailyFootprint(days[0]).totalEmissions] + DayTotals(days[1..])
  {
  }

  /** Logs that start with `logs + [log]` and continue with day totals `rest`. */
  lemma AppendTotals(logs: seq<DailyLog>, log: DailyLog, logs': seq<DailyLog>, rest: seq<real>)
    requires |logs'| >= |logs| + 1
    requires logs'[..|logs| + 1] == logs + [log]
    requires Totals(logs'[|logs| + 1..]) == rest
    ensures logs'[..|logs|] == logs
    ensures Totals(logs'[|logs|..]) == [log.totalCarbonForDay] + rest
  {
    assert logs'[..|logs|] == logs'[..|logs| + 1][..|logs|];
    assert logs'[|logs|..] == [logs'[|logs|]] + logs'[|logs| + 1..];
    assert logs'[|logs|] == logs'[..|logs| + 1][|logs|];
  }

  /** Over any number of submissions for an existing user, the running total
      grows by exactly the sum of the day totals, the daily score is that of
      the last day, and no other user changes. */
  lemma {:induction false} LogDaysAccumulates(users: seq<User>, logs: seq<DailyLog>, userId: UserId,
                                              days: seq<Activity>, times: seq<Time>)
    requires |days| == |times|
    ensures var r := LogDays(users, logs, userId, days, times);
            r.Success? ==>
              var i := FindUser(users, userId).value;
              var users' := r.value.0;
              && |users'| == |users|
              && users'[i].totalCarbonFootprint == users[i].totalCarbonFootprint + Sum(DayTotals(days))
              && (|days| > 0 ==>
                    users'[i].dailyScore == Server.SustainabilityScore(DayTotals(days)[|days| - 1]))
              && (forall j :: 0 <= j < |users| && j != i ==> users'[j] == users[j])
    decreases |days|
  {
    if |days| > 0 {
      var step := LogDailyActivity(users, logs, userId, days[0], times[0]);
      if step.Success? {
        var out := step.value;
        var i := FindUser(users, userId).value;
        FindUserAfterUpdate(users, i, out.users[i], userId);
        LogDaysAccumulates(out.users, out.logs, userId, days[1..], times[1..]);
        assert DayTotals(days)[1..] == DayTotals(days[1..]);
        if |days| > 1 {
          assert DayTotals(days)[|days| - 1] == DayTotals(days[1..])[|days| - 2];
        }
      }
    }
  }

  // ---------------------------------------------------------------------------
  // Statistics
  // ---------------------------------------------------------------------------

  /** The store's `{ userId }` condition. */
  function OwnedBy(userId: UserId): DailyLog -> bool {
    (l: DailyLog) => l.userId == userId
  }

  /** The `averageDailyEmissions` rule: 0 for no logs, otherwise the mean of
      the day totals to two decimals, which lies between the rounded lowest
      and highest day. */
  function AverageOrZero(totals: seq<real>): (r: real)
    ensures |totals| == 0 ==> r == 0.0
    ensures |totals| > 0 ==>
              var mean := Sum(totals) / |totals| as real;
              IsCents(r) && mean - 0.005 < r <= mean + 0.005
    ensures |totals| > 0 ==> Round2(MinOf(totals)) <= r <= Round2(MaxOf(totals))
  {
    if |totals| == 0 then 0.0
    else
      var mean := Sum(totals) / |totals| as real;
      MeanBetweenMinAndMax(totals);
      Round2Monotone(MinOf(totals), mean);
      Round2Monotone(mean, MaxOf(totals));
      Round2(mean)
  }

  datatype Stats = Stats(
    name: string,
    level: int,
    points: int,
    dailyScore: int,
    totalCarbonFootprint: real,
    totalDaysLogged: nat,
    averageDailyEmissions: real,
    lowestEmissionDay: real,
    highestEmissionDay: real)

  /** The lowest and highest day, rounded to two decimals, each bounding every
      day total rounded the same way. */
  lemma ExtremesBoundEveryDay(totals: seq<real>)
    requires |totals| > 0
    ensures forall k :: 0 <= k < |totals| ==> Round2(MinOf(totals)) <= Round2(totals[k]) <= Round2(MaxOf(totals))
  {
    forall k | 0 <= k < |totals|
      ensures Round2(MinOf(totals)) <= Round2(totals[k]) <= Round2(MaxOf(totals))
    {
      Round2Monotone(MinOf(totals), totals[k]);
      Round2Monotone(totals[k], MaxOf(totals));
    }
  }

  /** The figures `getUserStats` reports over a user's days. */
  datatype DayFigures = DayFigures(average: real, lowest: real, highest: real)

  /** The mean, lowest and highest day total of `days`, each to two decimals
      (all 0 for no days): the extremes are the rounded totals of actual days
      and bound every day, and the mean lies between them. */
  function Figures(days: seq<DailyLog>): (r: DayFigures)
    ensures |days| == 0 ==> r == DayFigures(0.0, 0.0, 0.0)
    ensures |days| > 0 ==> r.lowest <= r.average <= r.highest
    ensures |days| > 0 ==>
              var mean := Sum(Totals(days)) / |days| as real;
              IsCents(r.average) && mean - 0.005 < r.average <= mean + 0.005
    ensures forall l :: l in days ==> r.lowest <= Round2(l.totalCarbonForDay) <= r.highest
    ensures |days| > 0 ==>
              && (exists l :: l in days && r.lowest == Round2(l.totalCarbonForDay))
              && (exists l :: l in days && r.highest == Round2(l.totalCarbonForDay))
  {
    var totals := Totals(days);
    if |days| == 0 then DayFigures(0.0, 0.0, 0.0)
    else
      ExtremesBoundEveryDay(totals);
      assert forall l :: l in days ==> exists k :: 0 <= k < |days| && days[k] == l && totals[k] == l.totalCarbonForDay;
      var kLo :| 0 <= kLo < |totals| && totals[kLo] == MinOf(totals);
      var kHi :| 0 <= kHi < |totals| && totals[kHi] == MaxOf(totals);
      assert days[kLo] in days && days[kHi] in days;
      DayFigures(AverageOrZero(totals), Round2(MinOf(totals)), Round2(MaxOf(totals)))
  }

  /** `getUserStats`: 404 for an unknown user; otherwise the profile fields
      and the count, mean, minimum and maximum of the user's day totals, each
      to two decimals (all 0 when there are no logs). */
  function GetUserStats(users: seq<User>, logs: seq<DailyLog>, userId: UserId): (r: Result<Stats, ApiError>)
    ensures r.Failure? <==> FindUser(users, userId).None?
    ensures r.Failure? ==> r.error == UserNotFound
    ensures r.Success? ==>
              var u := users[FindUser(users, userId).value];
              var s := r.value;
              && s.name == u.name && s.level == u.level && s.points == u.points
              && s.dailyScore == u.dailyScore && s.totalCarbonFootprint == u.totalCarbonFootprint
              && s.totalDaysLogged == Count(logs, OwnedBy(userId))
              && (s.totalDaysLogged == 0 ==>
                    s.averageDailyEmissions == 0.0 && s.lowestEmissionDay == 0.0 && s.highestEmissionDay == 0.0)
              && (s.totalDaysLogged > 0 ==>
                    s.lowestEmissionDay <= s.averageDailyEmissions <= s.highestEmissionDay)
    ensures r.Success? ==>
              var s := r.value;
              && (forall l :: l in logs && l.userId == userId ==>
                    s.lowestEmissionDay <= Round2(l.totalCarbonForDay) <= s.highestEmissionDay)
              && (s.totalDaysLogged > 0 ==>
                    && (exists l :: l in logs && l.userId == userId
                                    && s.lowestEmissionDay == Round2(l.totalCarbonForDay))
                    && (exists l :: l in logs && l.userId == userId
                                    && s.highestEmissionDay == Round2(l.totalCarbonForDay)))
    ensures r.Success? && r.value.totalDaysLogged > 0 ==>
              var mine := Filter(logs, OwnedBy(userId));
              var mean := Sum(Totals(mine)) / |mine| as real;
              IsCents(r.value.averageDailyEmissions)
              && mean - 0.005 < r.value.averageDailyEmissions <= mean + 0.005
  {
    match FindUser(users, userId)
    case None => Failure(UserNotFound)
    case Some(i) =>
      var u := users[i];
      var mine := Filter(logs, OwnedBy(userId));
      assert forall l :: l in mine <==> l in logs && l.userId == userId;
      var f := Figures(mine);
      Success(Stats(u.name, u.level, u.points, u.dailyScore, u.totalCarbonFootprint, |mine|,
                    f.average, f.lowest, f.highest))
  }

  // ---------------------------------------------------------------------------
  // History window
  // ---------------------------------------------------------------------------

  /** The window's length in days when the request does not give one. */
  const DefaultHistoryDays: int := 30

  /** The store's `{ userId, createdAt: { $gte: start } }` condition. */
  function InWindow(userId: UserId, start: Time): DailyLog -> bool {
    (l: DailyLog) => l.userId == userId && l.createdAt >= start
  }

  /** The sort key for `sort({ createdAt: -1 })`. */
  function CreatedAt(l: DailyLog): real {
    l.createdAt as real
  }

  /** The start of the window: `days` days before `now` (30 when not given). */
  function WindowStart(now: Time, days: Option<int>): Time {
    now - days.GetOr(DefaultHistoryDays) * DayMs
  }

  /** `DailyLog.find({ userId, createdAt: { $gte: start } })`: every log of the
      user created at or after `start`, as often as the store holds it, and
      nothing else. */
  function Window(logs: seq<DailyLog>, userId: UserId, start: Time): (r: seq<DailyLog>)
    ensures forall l :: l in r <==> l in logs && l.userId == userId && l.createdAt >= start
    ensures forall l: DailyLog :: l.userId == userId && l.createdAt >= start ==>
              multiset(r)[l] == multiset(logs)[l]
    ensures multiset(r) <= multiset(logs)
  {
    var p := InWindow(userId, start);
    assert forall l :: p(l) <==> l.userId == userId && l.createdAt >= start;
    Filter(logs, p)
  }

  /** `.sort({ createdAt: -1 })`: the same logs, newest first. */
  function NewestFirst(s: seq<DailyLog>): (r: seq<DailyLog>)
    ensures multiset(r) == multiset(s)
    ensures forall l :: l in r <==> l in s
    ensures forall i, j :: 0 <= i < j < |r| ==> r[i].createdAt >= r[j].createdAt
  {
    var r := SortDesc(s, CreatedAt);
    PermutationSameMembers(r, s);
    r
  }

  datatype History = History(logs: seq<DailyLog>, totalLogs: nat, averageDailyEmissions: real)

  /** `getUserFootprintHistory`: the user's logs created at or after
      `now - days`, newest first, with their count and their mean to two
      decimals. */
  function GetUserFootprintHistory(logs: seq<DailyLog>, userId: UserId, now: Time, days: Option<int>)
    : (r: History)
    ensures forall l :: l in r.logs <==> l in logs && l.userId == userId && l.createdAt >= WindowStart(now, days)
    ensures multiset(r.logs) == multiset(Window(logs, userId, WindowStart(now, days)))
    ensures forall i, j :: 0 <= i < j < |r.logs| ==> r.logs[i].createdAt >= r.logs[j].createdAt
    ensures r.totalLogs == |r.logs|
    ensures |r.logs| == 0 ==> r.averageDailyEmissions == 0.0
    ensures |r.logs| > 0 ==>
              Round2(MinOf(Totals(r.logs))) <= r.averageDailyEmissions <= Round2(MaxOf(Totals(r.logs)))
    ensures |r.logs| > 0 ==>
              var mean := Sum(Totals(r.logs)) / |r.logs| as real;
              IsCents(r.averageDailyEmissions) && mean - 0.005 < r.averageDailyEmissions <= mean + 0.005
  {
    var sorted := NewestFirst(Window(logs, userId, WindowStart(now, days)));
    History(sorted, |sorted|, AverageOrZero(Totals(sorted)))
  }
}
