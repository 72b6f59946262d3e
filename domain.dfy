/**
 * The records of the fitness tracker (the interfaces of
 * src/hooks/useUserData.tsx), plus those its callers use without the file
 * declaring them: the strength-training chest type, repetitions with a
 * weight, and diet entries.
 */
module Domain {
  import opened Wrappers

  datatype ActivityType =
    | RoadRun | TreadmillRun | PoolSwim | SeaSwim | RoadCycle | IndoorCycle
    | StrengthTrainingLegs | StrengthTrainingArms | StrengthTrainingCore
    | StrengthTrainingShoulders | StrengthTrainingBack | StrengthTrainingChest

  /** The string tag an activity type is stored and exported as. */
  function TypeName(t: ActivityType): string
  {
    match t
    case RoadRun => "RoadRun"
    case TreadmillRun => "TreadmillRun"
    case PoolSwim => "PoolSwim"
    case SeaSwim => "SeaSwim"
    case RoadCycle => "RoadCycle"
    case IndoorCycle => "IndoorCycle"
    case StrengthTrainingLegs => "StrengthTrainingLegs"
    case StrengthTrainingArms => "StrengthTrainingArms"
    case StrengthTrainingCore => "StrengthTrainingCore"
    case StrengthTrainingShoulders => "StrengthTrainingShoulders"
    case StrengthTrainingBack => "StrengthTrainingBack"
    case StrengthTrainingChest => "StrengthTrainingChest"
  }

  /** The exercises a strength activity records, in declaration order. */
  datatype RepetitionType = BicepCurl | CableTricepPushdown

  const RepetitionTypes: seq<RepetitionType> := [BicepCurl, CableTricepPushdown]

  datatype Repetition = Repetition(repetitionType: RepetitionType, weightKg: real)

  /**
   * A workout.  Strength activities also carry their repetitions; for the
   * other types the list is empty.
   */
  datatype Activity = Activity(
    id: string,
    activityType: ActivityType,
    date: string,
    distanceInKm: real,
    durationInSeconds: real,
    repetitions: seq<Repetition>)

  function ActivityId(a: Activity): string { a.id }
  function ActivityDate(a: Activity): string { a.date }
  function ActivityTypeTag(a: Activity): string { TypeName(a.activityType) }

  datatype StatsEntry = StatsEntry(id: string, date: string, weightKg: real, bodyFatPercentage: Option<real>)

  function StatsId(e: StatsEntry): string { e.id }
  function StatsDate(e: StatsEntry): string { e.date }

  /** A dated nutrition record; only its key and date matter here. */
  datatype DietEntry = DietEntry(id: string, date: string)

  function DietId(e: DietEntry): string { e.id }
  function DietDate(e: DietEntry): string { e.date }

  datatype Day = Monday | Tuesday | Wednesday | Thursday | Friday | Saturday | Sunday

  const Days: seq<Day> := [Monday, Tuesday, Wednesday, Thursday, Friday, Saturday, Sunday]

  /** The planned activity types of each weekday. */
  type Schedule = map<Day, seq<ActivityType>>

  datatype Sex = Male | Female

  datatype UserProfile = UserProfile(
    heightCm: Option<real>,
    dateOfBirth: Option<string>,
    sex: Option<Sex>,
    targetWeightKg: Option<real>,
    targetDate: Option<string>,
    schedule: Schedule)

  const DefaultSchedule: Schedule := map d | d in Days :: []

  const DefaultUserProfile: UserProfile := UserProfile(None, None, None, None, None, DefaultSchedule)

  /** The user-chosen backup folder, identified by its name. */
  datatype FolderHandle = FolderHandle(name: string)
}
