/** One exercise tile of the library (src/components/Exercise/ExerciseCard.tsx):
    the calories it credits, whether it shows as completed, the click that
    marks it complete, and the colour of its difficulty badge. */
module ExerciseCard {
  import opened Prelude
  import opened Types
  import opened AuthContext
  import opened SampleData

  /** `Math.round(caloriesPerMinute * duration)`. */
  function CaloriesBurned(e: Exercise): (c: int)
    ensures c as real - 0.5 <= e.caloriesPerMinute * e.duration < c as real + 0.5
  {
    Round(e.caloriesPerMinute * e.duration)
  }

  /** For whole-number rates and durations, as in the catalog, the credit is the exact product. */
  lemma CaloriesOfWholeValues(e: Exercise)
    requires IsWhole(e.caloriesPerMinute) && IsWhole(e.duration)
    ensures CaloriesBurned(e) == e.caloriesPerMinute.Floor * e.duration.Floor
  {
    var p := e.caloriesPerMinute.Floor * e.duration.Floor;
    assert e.caloriesPerMinute * e.duration == p as real;
    RoundOfInteger(p);
  }

  /** Every catalog exercise credits exactly rate times duration; push-ups
      (id "1", 8 calories a minute for 5 minutes) credit 40. */
  lemma CatalogCredits()
    ensures forall i :: 0 <= i < |ExerciseDatabase| ==>
      CaloriesBurned(ExerciseDatabase[i])
        == ExerciseDatabase[i].caloriesPerMinute.Floor * ExerciseDatabase[i].duration.Floor
    ensures ExerciseDatabase[0].id == "1" && CaloriesBurned(ExerciseDatabase[0]) == 40
  {
    CatalogWholePositive();
    forall i | 0 <= i < |ExerciseDatabase|
      ensures CaloriesBurned(ExerciseDatabase[i])
        == ExerciseDatabase[i].caloriesPerMinute.Floor * ExerciseDatabase[i].duration.Floor
    {
      CaloriesOfWholeValues(ExerciseDatabase[i]);
    }
  }

  const SimpleColor: string := "bg-green-100 text-green-800"
  const ModerateColor: string := "bg-yellow-100 text-yellow-800"
  const HardColor: string := "bg-red-100 text-red-800"
  const DefaultColor: string := "bg-gray-100 text-gray-800"

  /** The badge classes for a difficulty string: one per known level, grey for anything else. */
  function DifficultyColor(difficulty: string): (c: string)
    ensures difficulty == "simple" <==> c == SimpleColor
    ensures difficulty == "moderate" <==> c == ModerateColor
    ensures difficulty == "hard" <==> c == HardColor
    ensures difficulty !in {"simple", "moderate", "hard"} <==> c == DefaultColor
  {
    match difficulty
    case "simple" => SimpleColor
    case "moderate" => ModerateColor
    case "hard" => HardColor
    case _ => DefaultColor
  }

  /** Every level of the type gets its own, non-grey badge. */
  lemma DifficultyColorsDistinct(a: Difficulty, b: Difficulty)
    ensures DifficultyColor(a.Name()) != DefaultColor
    ensures DifficultyColor(a.Name()) == DifficultyColor(b.Name()) <==> a == b
  {
  }

  class Card {
    const exercise: Exercise
    const store: AuthProvider
    /** The card's own `isCompleted` flag. */
    var isCompleted: bool

    constructor (exercise: Exercise, store: AuthProvider)
      ensures this.exercise == exercise && this.store == store && !isCompleted
    {
      this.exercise := exercise;
      this.store := store;
      isCompleted := false;
    }

    /** The current user lists this exercise, or this card was already clicked. */
    predicate IsExerciseCompleted()
      reads this, store
    {
      (store.user.Some? && exercise.id in store.user.value.completedExercises) || isCompleted
    }

    /** The "Complete" click: credit the exercise only if it is not yet completed. */
    method HandleComplete()
      modifies this, store
      ensures old(IsExerciseCompleted()) ==>
        isCompleted == old(isCompleted) && store.users == old(store.users)
        && store.user == old(store.user) && store.storage == old(store.storage)
      ensures !old(IsExerciseCompleted()) ==> isCompleted
      ensures !old(IsExerciseCompleted()) && old(store.user).None? ==>
        store.users == old(store.users) && store.user == old(store.user) && store.storage == old(store.storage)
      ensures !old(IsExerciseCompleted()) && old(store.user).Some? ==>
        && store.user == Some(Progressed(old(store.user).value, exercise.id, CaloriesBurned(exercise)))
        && store.users == ReplaceById(old(store.users), old(store.user).value.id, store.user.value)
        && store.storage == old(store.storage)[UsersKey := UserList(store.users)]
                                              [CurrentUserKey := UserRecord(store.user.value)]
      // a credited click adds the exercise once, one streak day and its calories once
      ensures !old(IsExerciseCompleted()) && old(store.user).Some? ==>
        && store.user.value.completedExercises == old(store.user).value.completedExercises + [exercise.id]
        && store.user.value.streakDays == old(store.user).value.streakDays + 1
        && store.user.value.totalCaloriesBurned == old(store.user).value.totalCaloriesBurned + CaloriesBurned(exercise)
      // so a second click does nothing
      ensures IsExerciseCompleted()
      ensures old(store.ProgressWellFormed()) ==> store.ProgressWellFormed()
    {
      if !IsExerciseCompleted() {
        isCompleted := true;
        store.UpdateUserProgress(exercise.id, CaloriesBurned(exercise));
      }
    }
  }

  /** Two clicks on a fresh card credit the exercise exactly once. */
  method CompleteTwice(card: Card)
    modifies card, card.store
    ensures !old(card.IsExerciseCompleted()) && old(card.store.user).Some? ==>
      && card.store.user.Some?
      && card.store.user.value.completedExercises == old(card.store.user).value.completedExercises + [card.exercise.id]
      && card.store.user.value.streakDays == old(card.store.user).value.streakDays + 1
      && card.store.user.value.totalCaloriesBurned
           == old(card.store.user).value.totalCaloriesBurned + CaloriesBurned(card.exercise)
  {
    card.HandleComplete();
    card.HandleComplete();
  }
}
