/** The statistics page (src/components/Analytics/AnalyticsPage.tsx): counts
    over the current user's completed exercises looked up in the catalog,
    the guarded averages and percentages, and the chart scale. The page
    passes the catalog constant; here it is a parameter. */
module Analytics {
  import opened Prelude
  import opened Types
  import opened SampleData

  /** `exerciseDatabase.find(e => e.id === id)`. */
  function FindExercise(catalog: seq<Exercise>, id: string): (r: Option<Exercise>)
    ensures r.Some? <==> exists i :: 0 <= i < |catalog| && catalog[i].id == id
    ensures r.Some? ==> exists i :: 0 <= i < |catalog| && catalog[i] == r.value && r.value.id == id
                          && forall j :: 0 <= j < i ==> catalog[j].id != id
  {
    FindFirst(catalog, (e: Exercise) => e.id == id)
  }

  /** How many of the completed ids have a catalog entry. */
  function FoundCount(completed: seq<string>, catalog: seq<Exercise>): (n: nat)
    ensures n <= |completed|
  {
    if completed == [] then 0
    else
      var n := |completed|;
      FoundCount(completed[..n - 1], catalog) + if FindExercise(catalog, completed[n - 1]).Some? then 1 else 0
  }

  /** How many completed ids name a catalog entry of the given category: the
      per-category reference count for the `reduce` at
      src/components/Analytics/AnalyticsPage.tsx:49-55. */
  function CategoryCount(completed: seq<string>, catalog: seq<Exercise>, category: string): (n: nat)
    ensures n <= FoundCount(completed, catalog)
  {
    if completed == [] then 0
    else
      var n := |completed|;
      var e := FindExercise(catalog, completed[n - 1]);
      CategoryCount(completed[..n - 1], catalog, category) + if e.Some? && e.value.category == category then 1 else 0
  }

  /** `completedExercises.filter(id => find(id)?.difficulty === difficulty).length`:
      the difficulty filter at src/components/Analytics/AnalyticsPage.tsx:387-390.
      Same shape as `CategoryCount`, over the difficulty field instead. */
  function DifficultyCount(completed: seq<string>, catalog: seq<Exercise>, difficulty: Difficulty): (n: nat)
    ensures n <= FoundCount(completed, catalog)
  {
    if completed == [] then 0
    else
      var n := |completed|;
      var e := FindExercise(catalog, completed[n - 1]);
      DifficultyCount(completed[..n - 1], catalog, difficulty) + if e.Some? && e.value.difficulty == difficulty then 1 else 0
  }

  /** The three difficulty counts add up to the completed ids found in the catalog. */
  lemma {:induction false} DifficultyCountsSum(completed: seq<string>, catalog: seq<Exercise>)
    ensures DifficultyCount(completed, catalog, Simple) + DifficultyCount(completed, catalog, Moderate)
          + DifficultyCount(completed, catalog, Hard) == FoundCount(completed, catalog)
    decreases |completed|
  {
    if completed != [] {
      DifficultyCountsSum(completed[..|completed| - 1], catalog);
    }
  }

  /** One `[category, count]` pair of the breakdown object. The entries are
      kept in the order their keys were first added, which is the order
      `Object.entries` reports for non-numeric keys such as the catalog's
      category names; no property of the model depends on it. */
  datatype Entry = Entry(category: string, count: nat)

  /** `acc[category] = (acc[category] || 0) + 1`. */
  function Bump(entries: seq<Entry>, category: string): (r: seq<Entry>)
    ensures |r| == |entries| + (if HasKey(entries, category) then 0 else 1)
  {
    if entries == [] then [Entry(category, 1)]
    else if entries[0].category == category then [Entry(category, entries[0].count + 1)] + entries[1..]
    else [entries[0]] + Bump(entries[1..], category)
  }

  /** The `reduce` that builds `categoryBreakdown`: ids without a catalog entry are skipped. */
  function CategoryBreakdown(completed: seq<string>, catalog: seq<Exercise>): (r: seq<Entry>)
    ensures |r| <= FoundCount(completed, catalog)
  {
    if completed == [] then []
    else
      var n := |completed|;
      var acc := CategoryBreakdown(completed[..n - 1], catalog);
      var e := FindExercise(catalog, completed[n - 1]);
      if e.Some? then Bump(acc, e.value.category) else acc
  }

  /** The count stored under a category, 0 if it has no key. */
  function CountOf(entries: seq<Entry>, category: string): nat {
    if entries == [] then 0
    else if entries[0].category == category then entries[0].count
    else CountOf(entries[1..], category)
  }

  function Total(entries: seq<Entry>): nat {
    if entries == [] then 0 else entries[0].count + Total(entries[1..])
  }

  /** Some entry has this category as its key. */
  predicate HasKey(entries: seq<Entry>, category: string) {
    entries != [] && (entries[0].category == category || HasKey(entries[1..], category))
  }

  /** No key occurs twice. */
  predicate KeysDistinct(entries: seq<Entry>) {
    entries == [] || (!HasKey(entries[1..], entries[0].category) && KeysDistinct(entries[1..]))
  }

  predicate CountsPositive(entries: seq<Entry>) {
    forall i :: 0 <= i < |entries| ==> entries[i].count > 0
  }

  /** Bumping a key adds it if needed, adds one to its count and to the
      total, and changes no other count. */
  lemma {:induction false} BumpSpec(entries: seq<Entry>, category: string)
    requires KeysDistinct(entries) && CountsPositive(entries)
    ensures KeysDistinct(Bump(entries, category)) && CountsPositive(Bump(entries, category))
    ensures forall c :: HasKey(Bump(entries, category), c) <==> c == category || HasKey(entries, c)
    ensures CountOf(Bump(entries, category), category) == CountOf(entries, category) + 1
    ensures forall c :: c != category ==> CountOf(Bump(entries, category), c) == CountOf(entries, c)
    ensures Total(Bump(entries, category)) == Total(entries) + 1
    decreases |entries|
  {
    if entries == [] {
      assert Bump(entries, category) == [Entry(category, 1)];
    } else if entries[0].category == category {
      var b := Bump(entries, category);
      assert b[1..] == entries[1..];
    } else {
      var tail := entries[1..];
      BumpSpec(tail, category);
      var b := Bump(entries, category);
      assert b[0] == entries[0] && b[1..] == Bump(tail, category);
    }
  }

  /** With positive counts, a category has a key exactly when its count is positive. */
  lemma {:induction false} KeyIffPositive(entries: seq<Entry>, category: string)
    requires CountsPositive(entries)
    ensures HasKey(entries, category) <==> CountOf(entries, category) > 0
    decreases |entries|
  {
    if entries != [] {
      KeyIffPositive(entries[1..], category);
    }
  }

  /** The breakdown has one key per category met, each with a positive count
      equal to the number of completed ids of that category; its counts add
      up to the number of completed ids found in the catalog. */
  lemma {:induction false} CategoryBreakdownSpec(completed: seq<string>, catalog: seq<Exercise>)
    ensures KeysDistinct(CategoryBreakdown(completed, catalog))
    ensures CountsPositive(CategoryBreakdown(completed, catalog))
    ensures forall c :: CountOf(CategoryBreakdown(completed, catalog), c) == CategoryCount(completed, catalog, c)
    ensures forall c :: HasKey(CategoryBreakdown(completed, catalog), c) <==> CategoryCount(completed, catalog, c) > 0
    ensures Total(CategoryBreakdown(completed, catalog)) == FoundCount(completed, catalog)
    decreases |completed|
  {
    if completed != [] {
      var n := |completed|;
      var init := completed[..n - 1];
      CategoryBreakdownSpec(init, catalog);
      var acc := CategoryBreakdown(init, catalog);
      var e := FindExercise(catalog, completed[n - 1]);
      if e.Some? {
        BumpSpec(acc, e.value.category);
      }
    }
    var b := CategoryBreakdown(completed, catalog);
    forall c ensures HasKey(b, c) <==> CategoryCount(completed, catalog, c) > 0 {
      KeyIffPositive(b, c);
    }
  }

  /** Each breakdown count is at most the number of completed ids, which is
      then positive: the percentage the page computes from it is well defined. */
  lemma {:induction false} BreakdownDivisorPositive(completed: seq<string>, catalog: seq<Exercise>)
    ensures forall i :: 0 <= i < |CategoryBreakdown(completed, catalog)| ==>
      CategoryBreakdown(completed, catalog)[i].count <= |completed| && |completed| > 0
  {
    var b := CategoryBreakdown(completed, catalog);
    CategoryBreakdownSpec(completed, catalog);
    forall i | 0 <= i < |b| ensures b[i].count <= |completed| && |completed| > 0 {
      EntryAtMostTotal(b, i);
    }
  }

  lemma {:induction false} EntryAtMostTotal(entries: seq<Entry>, i: nat)
    requires i < |entries|
    ensures entries[i].count <= Total(entries)
    decreases |entries|
  {
    if i > 0 {
      EntryAtMostTotal(entries[1..], i - 1);
    }
  }

  /** `Math.round((count / totalExercises) * 100)` for a breakdown entry. */
  function CategoryPercentage(count: nat, totalExercises: nat): (p: int)
    requires totalExercises > 0
    ensures count <= totalExercises ==> 0 <= p <= 100
    ensures count == totalExercises ==> p == 100
  {
    RatioBounds(count, totalExercises);
    Round(count as real / totalExercises as real * 100.0)
  }

  lemma RatioBounds(count: nat, total: nat)
    requires total > 0
    ensures 0.0 <= count as real / total as real
    ensures count <= total ==> count as real / total as real <= 1.0
    ensures count == total ==> count as real / total as real == 1.0
  {
    var r := count as real / total as real;
    assert r * total as real == count as real;
  }

  /** The difficulty percentage, guarded against an empty history. */
  function DifficultyPercentage(count: nat, totalExercises: nat): (p: int)
    ensures totalExercises == 0 ==> p == 0
    ensures count <= totalExercises ==> 0 <= p <= 100
  {
    if totalExercises > 0 then CategoryPercentage(count, totalExercises) else 0
  }

  /** `Math.round(totalCaloriesBurned / Math.max(streakDays, 1))`. */
  function AverageCaloriesPerDay(u: User): (avg: int)
    ensures var days := Max(u.streakDays, 1);
      days >= 1 && avg as real - 0.5 <= u.totalCaloriesBurned as real / days as real < avg as real + 0.5
    ensures u.streakDays <= 1 ==> avg == u.totalCaloriesBurned
  {
    var days := Max(u.streakDays, 1);
    RoundOfInteger(u.totalCaloriesBurned);
    Round(u.totalCaloriesBurned as real / days as real)
  }

  /** `Math.round((totalExercises / exerciseDatabase.length) * 100)`. */
  function CompletionRate(u: User, catalog: seq<Exercise>): (rate: int)
    requires |catalog| > 0
    ensures |u.completedExercises| <= |catalog| ==> 0 <= rate <= 100
    ensures |u.completedExercises| == |catalog| ==> rate == 100
    ensures u.completedExercises == [] ==> rate == 0
  {
    CategoryPercentage(|u.completedExercises|, |catalog|)
  }

  /** A list has at least as many positions as distinct elements, and exactly
      as many when nothing repeats. */
  lemma {:induction false} ElementCount<T>(xs: seq<T>)
    ensures |set x | x in xs| <= |xs|
    ensures NoDuplicates(xs) ==> |set x | x in xs| == |xs|
    decreases |xs|
  {
    if xs != [] {
      var tail := xs[1..];
      ElementCount(tail);
      assert (set x | x in xs) == {xs[0]} + (set x | x in tail);
      if NoDuplicates(xs) {
        assert NoDuplicates(tail) by {
          forall i, j | 0 <= i < j < |tail| ensures tail[i] != tail[j] {
            assert tail[i] == xs[i + 1] && tail[j] == xs[j + 1];
          }
        }
        assert xs[0] !in tail by {
          forall j | 0 <= j < |tail| ensures tail[j] != xs[0] {
            assert tail[j] == xs[j + 1];
          }
        }
      }
    }
  }

  /** `exerciseDatabase.map(e => e.id)`. */
  function Ids(catalog: seq<Exercise>): seq<string> {
    seq(|catalog|, i requires 0 <= i < |catalog| => catalog[i].id)
  }

  /** When the history lists each exercise once and only catalog exercises,
      as the seed data keeps it and the card supplies, it is no longer than
      the catalog, so the completion rate stays between 0 and 100. */
  lemma CompletionRateBounded(u: User, catalog: seq<Exercise>)
    requires |catalog| > 0
    requires NoDuplicates(u.completedExercises)
    requires forall id :: id in u.completedExercises ==> id in Ids(catalog)
    ensures |u.completedExercises| <= |catalog|
    ensures 0 <= CompletionRate(u, catalog) <= 100
  {
    var completed := u.completedExercises;
    ElementCount(completed);
    ElementCount(Ids(catalog));
    assert (set x | x in completed) <= (set x | x in Ids(catalog));
    SubsetCard(set x | x in completed, set x | x in Ids(catalog));
  }

  lemma {:induction false} SubsetCard<T>(a: set<T>, b: set<T>)
    requires a <= b
    ensures |a| <= |b|
    decreases |a|
  {
    if a != {} {
      var x :| x in a;
      SubsetCard(a - {x}, b - {x});
    }
  }

  /** The headline figures of the three demonstration accounts: completion
      rates of 20, 33 and 47 per cent, and 90, 65 and 156 calories a day. */
  lemma SampleHeadlines()
    ensures CompletionRate(SampleUsers[0], ExerciseDatabase) == 20
    ensures CompletionRate(SampleUsers[1], ExerciseDatabase) == 33
    ensures CompletionRate(SampleUsers[2], ExerciseDatabase) == 47
    ensures AverageCaloriesPerDay(SampleUsers[0]) == 90
    ensures AverageCaloriesPerDay(SampleUsers[1]) == 65
    ensures AverageCaloriesPerDay(SampleUsers[2]) == 156
  {
  }

  datatype Metric = Calories | Exercises | Duration

  datatype DayStats = DayStats(day: string, calories: int, exercises: int, duration: int)

  function MetricOf(d: DayStats, m: Metric): int {
    match m
    case Calories => d.calories
    case Exercises => d.exercises
    case Duration => d.duration
  }

  /** The fixed week of sample chart data the page shows. */
  const WeeklyData: seq<DayStats> :=
    [ DayStats("Mon", 120, 2, 15), DayStats("Tue", 180, 3, 22), DayStats("Wed", 90, 1, 12),
      DayStats("Thu", 200, 4, 28), DayStats("Fri", 150, 2, 18), DayStats("Sat", 220, 3, 25),
      DayStats("Sun", 100, 1, 10) ]

  /** `Math.max(...data.map(d => d[metric]))`. */
  function MaxValue(data: seq<DayStats>, m: Metric): (r: int)
    requires |data| > 0
    ensures forall k :: 0 <= k < |data| ==> MetricOf(data[k], m) <= r
    ensures exists k :: 0 <= k < |data| && MetricOf(data[k], m) == r
  {
    if |data| == 1 then MetricOf(data[0], m)
    else
      var rest := MaxValue(data[1..], m);
      assert forall k :: 1 <= k < |data| ==> data[k] == data[1..][k - 1];
      Max(MetricOf(data[0], m), rest)
  }

  /** The sample week runs from Monday to Sunday, every figure positive. */
  lemma WeeklyDays()
    ensures |WeeklyData| == 7
    ensures forall k :: 0 <= k < 7 ==> WeeklyData[k].day == ["Mon", "Tue", "Wed", "Thu", "Fri", "Sat", "Sun"][k]
    ensures forall k, m :: 0 <= k < |WeeklyData| ==> MetricOf(WeeklyData[k], m) > 0
  {
    var w := WeeklyData;
    forall k, m | 0 <= k < |w| ensures MetricOf(w[k], m) > 0 {
      assert w[k].calories >= 90 && w[k].exercises >= 1 && w[k].duration >= 10;
    }
  }

  /** The chart scale for the sample week: 220 calories, 4 exercises, 28 minutes. */
  lemma WeeklyMaxima()
    ensures MaxValue(WeeklyData, Calories) == 220
    ensures MaxValue(WeeklyData, Exercises) == 4
    ensures MaxValue(WeeklyData, Duration) == 28
  {
    var w := WeeklyData;
    // Saturday has the most calories, Thursday the most exercises and minutes
    assert MetricOf(w[5], Calories) == 220 && MetricOf(w[3], Exercises) == 4 && MetricOf(w[3], Duration) == 28;
    forall k | 0 <= k < |w|
      ensures MetricOf(w[k], Calories) <= 220 && MetricOf(w[k], Exercises) <= 4 && MetricOf(w[k], Duration) <= 28
    {
    }
  }
}
