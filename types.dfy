/** Record shapes of the workout app (types.ts). Strings are `seq<char>`;
    the optional numeric rating fields are not used by the state logic and
    are not part of these records. */
module Types {

  datatype Option<+T> = None | Some(value: T)

  /** A generated or saved workout; `id` is the key the saved list is kept by. */
  datatype Workout = Workout(
    id: string,
    name: string,
    kind: string,
    description: string,
    timeEstimate: string,
    equipmentNeeded: seq<string>,
    difficulty: string,
    focus: string,
    tips: string,
    isBenchmark: bool)

  /** One entry of the user's history: the workout that was completed. */
  datatype CompletedWorkout = CompletedWorkout(
    historyId: string,
    workout: Workout,
    completedAt: string)

  /** The signed-in user; `workoutsCompleted` is the completion counter. */
  datatype UserProfile = UserProfile(
    id: string,
    name: string,
    email: string,
    phone: string,
    avatarUrl: Option<string>,
    joinDate: string,
    workoutsCompleted: int)
}
