/** The record shapes of the application (src/types/index.ts). JavaScript
    numbers that only ever hold whole values in this application (ages,
    calorie totals, streak counters) are `int`; the ones that may be
    fractional (body weight and height, exercise duration and calorie rate)
    are `real`. */
module Types {
  import opened Prelude

  datatype FitnessLevel = Beginner | Intermediate | Advanced

  datatype Difficulty = Simple | Moderate | Hard {
    /** The string the application stores and compares for this level. */
    function Name(): (s: string)
      ensures s in {"simple", "moderate", "hard"}
    {
      match this
      case Simple => "simple"
      case Moderate => "moderate"
      case Hard => "hard"
    }
  }

  lemma DifficultyNamesDistinct(a: Difficulty, b: Difficulty)
    ensures a.Name() == b.Name() <==> a == b
  {
  }

  datatype User = User(
    id: string,
    email: string,
    password: string,
    name: string,
    age: int,
    weight: real,           // kilograms
    height: real,           // centimetres
    fitnessLevel: FitnessLevel,
    completedExercises: seq<string>,
    streakDays: int,
    totalCaloriesBurned: int,
    createdAt: string)

  /** What `signup` receives: a `User` without `id`, `completedExercises`,
      `streakDays`, `totalCaloriesBurned` and `createdAt`. */
  datatype Profile = Profile(
    email: string,
    password: string,
    name: string,
    age: int,
    weight: real,
    height: real,
    fitnessLevel: FitnessLevel)

  /** The profile part of a user record. */
  function ProfileOf(u: User): Profile {
    Profile(u.email, u.password, u.name, u.age, u.weight, u.height, u.fitnessLevel)
  }

  datatype Exercise = Exercise(
    id: string,
    name: string,
    category: string,
    difficulty: Difficulty,
    description: string,
    duration: real,             // minutes
    caloriesPerMinute: real,
    reps: Option<int>,
    sets: Option<int>)

  /** A JavaScript number that holds a whole value. */
  predicate IsWhole(x: real) {
    x.Floor as real == x
  }
}
