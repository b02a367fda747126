/** The constant data the application ships with (src/data/sampleUsers.ts):
    the three demonstration accounts the store seeds itself with and the
    fifteen-entry exercise catalog. */
module SampleData {
  import opened Prelude
  import opened Types

  const SampleUsers: seq<User> :=
    [
      User(
    id := "1", email := "john.doe@student.edu", password := "password123", name := "John Doe",
        age := 20, weight := 70.0, height := 175.0, fitnessLevel := Beginner,
        completedExercises := ["1", "3", "5"], streakDays := 5, totalCaloriesBurned := 450,
        createdAt := "2024-01-15T08:00:00Z"),
      User(
    id := "2", email := "sarah.wilson@student.edu", password := "password123", name := "Sarah Wilson",
        age := 19, weight := 58.0, height := 165.0, fitnessLevel := Intermediate,
        completedExercises := ["2", "4", "6", "8", "10"], streakDays := 12, totalCaloriesBurned := 780,
        createdAt := "2024-01-10T09:30:00Z"),
      User(
    id := "3", email := "mike.chen@student.edu", password := "password123", name := "Mike Chen",
        age := 22, weight := 80.0, height := 180.0, fitnessLevel := Advanced,
        completedExercises := ["7", "9", "11", "12", "13", "14", "15"], streakDays := 8, totalCaloriesBurned := 1250,
        createdAt := "2024-01-08T07:15:00Z")
    ]

  /** The exercise catalog, in display order. */
  const ExerciseDatabase: seq<Exercise> :=
    [ Exercise1, Exercise2, Exercise3, Exercise4, Exercise5,
      Exercise6, Exercise7, Exercise8, Exercise9, Exercise10,
      Exercise11, Exercise12, Exercise13, Exercise14, Exercise15 ]

  const Exercise1: Exercise := Exercise(
    id := "1", name := "Push-ups", category := "Upper Body", difficulty := Simple,
    description := "Classic bodyweight exercise targeting chest, shoulders, and triceps",
    duration := 5.0, caloriesPerMinute := 8.0,
    reps := Some(10), sets := Some(3))

  const Exercise2: Exercise := Exercise(
    id := "2", name := "Bodyweight Squats", category := "Lower Body", difficulty := Simple,
    description := "Fundamental lower body exercise for building leg strength",
    duration := 5.0, caloriesPerMinute := 6.0,
    reps := Some(15), sets := Some(3))

  const Exercise3: Exercise := Exercise(
    id := "3", name := "Plank", category := "Core", difficulty := Simple,
    description := "Isometric core exercise for building stability and strength",
    duration := 3.0, caloriesPerMinute := 5.0,
    reps := Some(1), sets := Some(3))

  const Exercise4: Exercise := Exercise(
    id := "4", name := "Mountain Climbers", category := "Cardio", difficulty := Moderate,
    description := "High-intensity cardio exercise that works the whole body",
    duration := 4.0, caloriesPerMinute := 12.0,
    reps := Some(20), sets := Some(3))

  const Exercise5: Exercise := Exercise(
    id := "5", name := "Jumping Jacks", category := "Cardio", difficulty := Simple,
    description := "Full-body cardio exercise to get your heart pumping",
    duration := 3.0, caloriesPerMinute := 10.0,
    reps := Some(20), sets := Some(3))

  const Exercise6: Exercise := Exercise(
    id := "6", name := "Burpees", category := "Full Body", difficulty := Moderate,
    description := "Intense full-body exercise combining strength and cardio",
    duration := 5.0, caloriesPerMinute := 15.0,
    reps := Some(8), sets := Some(3))

  const Exercise7: Exercise := Exercise(
    id := "7", name := "Pull-ups", category := "Upper Body", difficulty := Hard,
    description := "Advanced upper body exercise requiring significant strength",
    duration := 4.0, caloriesPerMinute := 10.0,
    reps := Some(5), sets := Some(3))

  const Exercise8: Exercise := Exercise(
    id := "8", name := "Lunges", category := "Lower Body", difficulty := Moderate,
    description := "Unilateral leg exercise for building strength and balance",
    duration := 4.0, caloriesPerMinute := 7.0,
    reps := Some(12), sets := Some(3))

  const Exercise9: Exercise := Exercise(
    id := "9", name := "Handstand Push-ups", category := "Upper Body", difficulty := Hard,
    description := "Advanced bodyweight exercise requiring significant upper body strength",
    duration := 3.0, caloriesPerMinute := 12.0,
    reps := Some(3), sets := Some(3))

  const Exercise10: Exercise := Exercise(
    id := "10", name := "Pike Push-ups", category := "Upper Body", difficulty := Moderate,
    description := "Shoulder-focused variation of push-ups",
    duration := 4.0, caloriesPerMinute := 9.0,
    reps := Some(8), sets := Some(3))

  const Exercise11: Exercise := Exercise(
    id := "11", name := "Single-Leg Squats (Pistol Squats)", category := "Lower Body", difficulty := Hard,
    description := "Advanced unilateral leg exercise requiring strength and balance",
    duration := 5.0, caloriesPerMinute := 11.0,
    reps := Some(5), sets := Some(3))

  const Exercise12: Exercise := Exercise(
    id := "12", name := "Diamond Push-ups", category := "Upper Body", difficulty := Hard,
    description := "Advanced push-up variation targeting triceps",
    duration := 4.0, caloriesPerMinute := 10.0,
    reps := Some(6), sets := Some(3))

  const Exercise13: Exercise := Exercise(
    id := "13", name := "L-Sit", category := "Core", difficulty := Hard,
    description := "Advanced isometric core exercise",
    duration := 2.0, caloriesPerMinute := 8.0,
    reps := Some(1), sets := Some(5))

  const Exercise14: Exercise := Exercise(
    id := "14", name := "Hindu Push-ups", category := "Full Body", difficulty := Hard,
    description := "Dynamic full-body movement combining strength and flexibility",
    duration := 5.0, caloriesPerMinute := 13.0,
    reps := Some(8), sets := Some(3))

  const Exercise15: Exercise := Exercise(
    id := "15", name := "Archer Push-ups", category := "Upper Body", difficulty := Hard,
    description := "Unilateral push-up variation for advanced practitioners",
    duration := 4.0, caloriesPerMinute := 11.0,
    reps := Some(4), sets := Some(3))

  /** The catalog's ids, in order. */
  const CatalogIdList: seq<string> :=
    ["1", "2", "3", "4", "5", "6", "7", "8", "9", "10", "11", "12", "13", "14", "15"]

  /** The catalog holds fifteen exercises with the ids "1" to "15", in that order. */
  lemma CatalogIds()
    ensures |ExerciseDatabase| == 15
    ensures forall i :: 0 <= i < 15 ==> ExerciseDatabase[i].id == CatalogIdList[i]
  {
  }

  /** No two catalog exercises share an id. */
  lemma CatalogIdsDistinct()
    ensures forall i, j :: 0 <= i < j < |ExerciseDatabase| ==> ExerciseDatabase[i].id != ExerciseDatabase[j].id
  {
    CatalogIds();
    var ids := CatalogIdList;
    forall i, j | 0 <= i < j < 15 ensures ids[i] != ids[j] {
      // ids of the same length differ in their last digit
      assert |ids[i]| != |ids[j]| || ids[i][|ids[i]| - 1] != ids[j][|ids[j]| - 1];
    }
  }

  /** Four simple exercises (ids 1, 2, 3, 5), four moderate (ids 4, 6, 8, 10),
      and the other seven hard. */
  lemma CatalogDifficulties()
    ensures forall i :: 0 <= i < |ExerciseDatabase| ==>
      var e := ExerciseDatabase[i];
      && (e.difficulty == Simple <==> e.id in {"1", "2", "3", "5"})
      && (e.difficulty == Moderate <==> e.id in {"4", "6", "8", "10"})
      && (e.difficulty == Hard <==> e.id in {"7", "9", "11", "12", "13", "14", "15"})
  {
  }

  /** Every duration and calorie rate in the catalog is a positive whole number. */
  lemma CatalogWholePositive()
    ensures forall i :: 0 <= i < |ExerciseDatabase| ==>
      var e := ExerciseDatabase[i];
      IsWhole(e.duration) && e.duration > 0.0 && IsWhole(e.caloriesPerMinute) && e.caloriesPerMinute > 0.0
  {
  }

  /** The demonstration accounts have the ids "1", "2", "3" and pairwise distinct emails. */
  lemma SampleUsersDistinct()
    ensures |SampleUsers| == 3
    ensures SampleUsers[0].id == "1" && SampleUsers[1].id == "2" && SampleUsers[2].id == "3"
    ensures forall i, j :: 0 <= i < j < 3 ==>
      SampleUsers[i].id != SampleUsers[j].id && SampleUsers[i].email != SampleUsers[j].email
  {
  }

  /** Each demonstration account lists every completed exercise once, and only
      ids of the catalog (by CatalogIds, each names a catalog entry). */
  lemma SampleProgressWellFormed()
    ensures forall k :: 0 <= k < |SampleUsers| ==> NoDuplicates(SampleUsers[k].completedExercises)
    ensures forall k, n :: 0 <= k < |SampleUsers| && 0 <= n < |SampleUsers[k].completedExercises| ==>
      SampleUsers[k].completedExercises[n] in CatalogIdList
  {
  }
}
