/** The records the application stores and exchanges: a day's activity as
    submitted, the persisted daily log, the user profile, the challenge with
    its participants, and the shape of an emission-factor table.
    Field names follow the documents; JavaScript's `type` field is `kind`
    here because `type` is a Dafny keyword. */
module Models {
  import opened Wrappers

  type UserId = string
  type ChallengeId = string

  /** A point in time, in milliseconds since the epoch. */
  type Time = int

  /** One day in milliseconds (a calendar day without daylight-saving shifts). */
  const DayMs: int := 86_400_000

  // ---------------------------------------------------------------------------
  // Activity as submitted
  // ---------------------------------------------------------------------------

  /** `{ type, distance }`: a transport mode name and kilometres travelled. */
  datatype Transport = Transport(kind: string, distance: real)

  /** `{ type, count }`; `count` is `None` when the field is absent. */
  datatype Meal = Meal(kind: string, count: Option<real>)

  /** `{ emails, streamingHours }`; a field is `None` when absent. */
  datatype DigitalWaste = DigitalWaste(emails: Option<real>, streamingHours: Option<real>)

  /** A day's activity record. A section is `None` when it is missing (for
      meals, also when the value is not an array). */
  datatype Activity = Activity(
    transportation: Option<Transport>,
    meals: Option<seq<Meal>>,
    digitalWaste: Option<DigitalWaste>)

  /** Transport modes and meal kinds the daily-log schema enumerates. */
  const TransportKinds: set<string> := {"walking", "cycling", "bus", "train", "car", "electric_vehicle"}
  const MealKinds: set<string> := {"vegan", "vegetarian", "meat", "fish"}

  // ---------------------------------------------------------------------------
  // Emission factors
  // ---------------------------------------------------------------------------

  /** The shape of `EMISSION_FACTORS`, in kg CO2e per km, per meal, per email
      and per streaming hour. */
  datatype FactorTable = FactorTable(
    transportation: map<string, real>,
    meals: map<string, real>,
    email: real,
    streaming: real)

  /** `table[key] || 0`: an absent key reads as a zero factor. */
  function Factor(table: map<string, real>, key: string): (r: real)
    ensures key in table ==> r == table[key]
    ensures key !in table ==> r == 0.0
  {
    if key in table then table[key] else 0.0
  }

  // ---------------------------------------------------------------------------
  // Persisted documents
  // ---------------------------------------------------------------------------

  /** A persisted day: the submitted sections and the day's total. */
  datatype DailyLog = DailyLog(
    userId: UserId,
    transportation: Option<Transport>,
    meals: Option<seq<Meal>>,
    digitalWaste: Option<DigitalWaste>,
    totalCarbonForDay: real,
    createdAt: Time)

  /** The user profile, with the fields the controllers read and write. */
  datatype User = User(
    id: UserId,
    name: string,
    level: int,
    points: int,
    dailyScore: int,
    totalCarbonFootprint: real,
    university: string,
    department: string,
    badges: seq<string>)

  datatype Category = Transportation | Diet | Digital | General
  datatype Difficulty = Easy | Medium | Hard

  datatype Participant = Participant(
    userId: UserId,
    progress: real,
    completed: bool,
    completedAt: Option<Time>)

  /** A challenge; `startDate`/`endDate` are `None` when the document lacks them. */
  datatype Challenge = Challenge(
    id: ChallengeId,
    name: string,
    category: Category,
    difficulty: Difficulty,
    pointsReward: real,
    targetValue: Option<real>,
    startDate: Option<Time>,
    endDate: Option<Time>,
    participants: seq<Participant>)

  // ---------------------------------------------------------------------------
  // Request rejections
  // ---------------------------------------------------------------------------

  datatype ApiError = UserNotFound | ChallengeNotFound | AlreadyJoined {
    /** The HTTP status the controller answers with. */
    function Status(): int {
      match this
      case UserNotFound => 404
      case ChallengeNotFound => 404
      case AlreadyJoined => 400
    }
  }

  /** The position of the first record whose `key` is `id`, if any. */
  function FindBy<T>(s: seq<T>, key: T -> string, id: string): (r: Option<nat>)
    ensures r.None? <==> forall i :: 0 <= i < |s| ==> key(s[i]) != id
    ensures r.Some? ==> r.value < |s| && key(s[r.value]) == id
    ensures r.Some? ==> forall j :: 0 <= j < r.value ==> key(s[j]) != id
  {
    if |s| == 0 then None
    else if key(s[0]) == id then Some(0)
    else
      match FindBy(s[1..], key, id)
      case None => None
      case Some(k) => Some(k + 1)
  }

  /** Two sequences whose records carry the same keys, position by position,
      give the same lookups. */
  lemma FindByAfterUpdate<T>(before: seq<T>, after: seq<T>, key: T -> string, id: string)
    requires |before| == |after|
    requires forall j :: 0 <= j < |before| ==> key(after[j]) == key(before[j])
    ensures FindBy(after, key, id) == FindBy(before, key, id)
  {
  }

  function UserKey(u: User): UserId { u.id }
  function ChallengeKey(c: Challenge): ChallengeId { c.id }

  /** `User.findById(id)`: the position of the first user with that id, if any. */
  function FindUser(users: seq<User>, id: UserId): (r: Option<nat>)
    ensures r.None? <==> forall i :: 0 <= i < |users| ==> users[i].id != id
    ensures r.Some? ==> r.value < |users| && users[r.value].id == id
    ensures r.Some? ==> forall j :: 0 <= j < r.value ==> users[j].id != id
  {
    FindBy(users, UserKey, id)
  }

  /** `Challenge.findById(id)`: the position of the first challenge with that
      id, if any. */
  function FindChallenge(challenges: seq<Challenge>, id: ChallengeId): (r: Option<nat>)
    ensures r.None? <==> forall i :: 0 <= i < |challenges| ==> challenges[i].id != id
    ensures r.Some? ==> r.value < |challenges| && challenges[r.value].id == id
    ensures r.Some? ==> forall j :: 0 <= j < r.value ==> challenges[j].id != id
  {
    FindBy(challenges, ChallengeKey, id)
  }
}
