/** The catalog browser (src/components/Exercise/ExerciseLibrary.tsx): the
    search-and-selector filter over the catalog and the option lists of the
    two selectors. Lower-casing is ASCII only. */
module ExerciseLibrary {
  import opened Prelude
  import opened Types
  import opened SampleData

  const All: string := "all"

  /** The difficulty selector's options. */
  const Difficulties: seq<string> := [All, "simple", "moderate", "hard"]

  /** The difficulty selector offers "all" first, then the name of each
      difficulty level exactly once, and nothing else. */
  lemma DifficultyOptions()
    ensures |Difficulties| == 4 && Difficulties[0] == All && NoDuplicates(Difficulties)
    ensures forall d: Difficulty :: d.Name() in Difficulties[1..]
    ensures forall s :: s in Difficulties[1..] ==> exists d: Difficulty :: d.Name() == s
  {
    assert Difficulties[1..] == [Simple.Name(), Moderate.Name(), Hard.Name()];
  }

  function LowerChar(c: char): char {
    if 'A' <= c <= 'Z' then (c as int + 32) as char else c
  }

  /** `toLowerCase`, restricted to ASCII letters. */
  function ToLower(s: string): (r: string)
    ensures |r| == |s| && forall i :: 0 <= i < |s| ==> r[i] == LowerChar(s[i])
  {
    if s == [] then [] else [LowerChar(s[0])] + ToLower(s[1..])
  }

  /** `text.includes(term)`: `term` occurs in `text` at some position. */
  predicate Includes(text: string, term: string)
    ensures Includes(text, term) ==> |term| <= |text|
  {
    exists i :: 0 <= i <= |text| && OccursAt(text, term, i)
  }

  predicate OccursAt(text: string, term: string, i: nat) {
    i + |term| <= |text| && text[i..i + |term|] == term
  }

  lemma IncludesEmpty(text: string)
    ensures Includes(text, "")
  {
    assert OccursAt(text, "", 0);
  }

  predicate MatchesSearch(e: Exercise, searchTerm: string)
    ensures MatchesSearch(e, searchTerm) ==> |searchTerm| <= |e.name| || |searchTerm| <= |e.description|
  {
    Includes(ToLower(e.name), ToLower(searchTerm)) || Includes(ToLower(e.description), ToLower(searchTerm))
  }

  predicate MatchesDifficulty(e: Exercise, selectedDifficulty: string) {
    selectedDifficulty == All || e.difficulty.Name() == selectedDifficulty
  }

  predicate MatchesCategory(e: Exercise, selectedCategory: string) {
    selectedCategory == All || e.category == selectedCategory
  }

  predicate Shown(e: Exercise, searchTerm: string, selectedDifficulty: string, selectedCategory: string) {
    MatchesSearch(e, searchTerm) && MatchesDifficulty(e, selectedDifficulty) && MatchesCategory(e, selectedCategory)
  }

  /** `filteredExercises`: the catalog entries the three controls let through, in catalog order. */
  function FilteredExercises(catalog: seq<Exercise>, searchTerm: string, selectedDifficulty: string,
                             selectedCategory: string): (r: seq<Exercise>)
    ensures |r| <= |catalog|
    ensures forall e :: e in r <==> e in catalog && Shown(e, searchTerm, selectedDifficulty, selectedCategory)
  {
    if catalog == [] then []
    else
      var rest := FilteredExercises(catalog[1..], searchTerm, selectedDifficulty, selectedCategory);
      assert forall e :: e in catalog <==> e == catalog[0] || e in catalog[1..];
      if Shown(catalog[0], searchTerm, selectedDifficulty, selectedCategory) then [catalog[0]] + rest else rest
  }

  /** The filter keeps a subsequence of the catalog. */
  lemma {:induction false} FilteredIsSubsequence(catalog: seq<Exercise>, searchTerm: string,
                                                 selectedDifficulty: string, selectedCategory: string)
    ensures IsSubsequence(FilteredExercises(catalog, searchTerm, selectedDifficulty, selectedCategory), catalog)
    decreases |catalog|
  {
    if catalog != [] {
      FilteredIsSubsequence(catalog[1..], searchTerm, selectedDifficulty, selectedCategory);
    }
  }

  /** An empty search with both selectors on "all" shows the whole catalog. */
  lemma {:induction false} UnfilteredIsCatalog(catalog: seq<Exercise>)
    ensures FilteredExercises(catalog, "", All, All) == catalog
    decreases |catalog|
  {
    if catalog != [] {
      UnfilteredIsCatalog(catalog[1..]);
      IncludesEmpty(ToLower(catalog[0].name));
      assert ToLower("") == "";
      assert Shown(catalog[0], "", All, All);
      assert catalog == [catalog[0]] + catalog[1..];
    }
  }

  /** Choosing a particular difficulty instead of "all" can only remove exercises. */
  lemma {:induction false} DifficultyNarrows(catalog: seq<Exercise>, searchTerm: string,
                                             selectedDifficulty: string, selectedCategory: string)
    ensures IsSubsequence(FilteredExercises(catalog, searchTerm, selectedDifficulty, selectedCategory),
                          FilteredExercises(catalog, searchTerm, All, selectedCategory))
    decreases |catalog|
  {
    if catalog != [] {
      DifficultyNarrows(catalog[1..], searchTerm, selectedDifficulty, selectedCategory);
    }
  }

  /** Choosing a particular category instead of "all" can only remove exercises. */
  lemma {:induction false} CategoryNarrows(catalog: seq<Exercise>, searchTerm: string,
                                           selectedDifficulty: string, selectedCategory: string)
    ensures IsSubsequence(FilteredExercises(catalog, searchTerm, selectedDifficulty, selectedCategory),
                          FilteredExercises(catalog, searchTerm, selectedDifficulty, All))
    decreases |catalog|
  {
    if catalog != [] {
      CategoryNarrows(catalog[1..], searchTerm, selectedDifficulty, selectedCategory);
    }
  }

  /** `Array.from(new Set(xs))`: the distinct elements in order of first appearance. */
  function Distinct(xs: seq<string>): (r: seq<string>)
    ensures NoDuplicates(r)
    ensures forall x :: x in r <==> x in xs
    ensures |r| <= |xs|
  {
    if xs == [] then []
    else
      var prefix := Distinct(xs[..|xs| - 1]);
      assert forall x :: x in xs <==> x in xs[..|xs| - 1] || x == xs[|xs| - 1];
      if xs[|xs| - 1] in prefix then prefix else prefix + [xs[|xs| - 1]]
  }

  /** The position of the first occurrence of `x` in `xs`. */
  function FirstIndex(xs: seq<string>, x: string): (i: nat)
    requires x in xs
    ensures i < |xs| && xs[i] == x && forall j :: 0 <= j < i ==> xs[j] != x
  {
    if xs[0] == x then 0 else 1 + FirstIndex(xs[1..], x)
  }

  /** Earlier in the distinct list means first seen earlier in the input. */
  lemma {:induction false} DistinctInFirstAppearanceOrder(xs: seq<string>, a: nat, b: nat)
    requires a < b < |Distinct(xs)|
    ensures FirstIndex(xs, Distinct(xs)[a]) < FirstIndex(xs, Distinct(xs)[b])
    decreases |xs|
  {
    var n := |xs|;
    var init, last := xs[..n - 1], xs[n - 1];
    var prefix := Distinct(init);
    var r := Distinct(xs);
    assert r == if last in prefix then prefix else prefix + [last];
    assert a < |prefix| && r[a] == prefix[a];
    FirstIndexOfPrefix(xs, r[a]);
    if b < |prefix| {
      assert r[b] == prefix[b];
      DistinctInFirstAppearanceOrder(init, a, b);
      FirstIndexOfPrefix(xs, r[b]);
    } else {
      // the last element, first seen at the end of xs
      assert r[b] == last && last !in init;
      assert FirstIndex(xs, r[b]) == n - 1;
    }
  }

  /** An element already seen in all but the last position is first seen there. */
  lemma FirstIndexOfPrefix(xs: seq<string>, x: string)
    requires |xs| > 0 && x in xs && x in Distinct(xs[..|xs| - 1])
    ensures x in xs[..|xs| - 1] && FirstIndex(xs, x) == FirstIndex(xs[..|xs| - 1], x)
  {
    var init := xs[..|xs| - 1];
    var k := FirstIndex(init, x);
    assert xs[k] == x;
  }

  /** `catalog.map(e => e.category)`. */
  function Categories(catalog: seq<Exercise>): seq<string> {
    seq(|catalog|, i requires 0 <= i < |catalog| => catalog[i].category)
  }

  /** The category selector's options: "all", then the distinct catalog categories. */
  function CategoryOptions(catalog: seq<Exercise>): (r: seq<string>)
    ensures 1 <= |r| <= |catalog| + 1 && r[0] == All
  {
    [All] + Distinct(Categories(catalog))
  }

  /** The options start with "all", then list each category of the catalog
      exactly once, in order of first appearance; the list is duplicate-free
      as long as no exercise has the category "all". */
  lemma CategoryOptionsSpec(catalog: seq<Exercise>)
    ensures |CategoryOptions(catalog)| >= 1 && CategoryOptions(catalog)[0] == All
    ensures forall c :: c in CategoryOptions(catalog)[1..] <==> exists e :: e in catalog && e.category == c
    ensures (forall e :: e in catalog ==> e.category != All) ==> NoDuplicates(CategoryOptions(catalog))
  {
    var categories := Categories(catalog);
    var distinct := Distinct(categories);
    var r := CategoryOptions(catalog);
    assert r[1..] == distinct;
    forall c | c in categories ensures exists e :: e in catalog && e.category == c {
      var i :| 0 <= i < |categories| && categories[i] == c;
      assert catalog[i] in catalog;
    }
    forall e | e in catalog ensures e.category in categories {
      var i :| 0 <= i < |catalog| && catalog[i] == e;
      assert categories[i] == e.category;
    }
    if forall e :: e in catalog ==> e.category != All {
      assert All !in categories;
      forall i, j | 0 <= i < j < |r| ensures r[i] != r[j] {
        assert r[j] == distinct[j - 1];
        if i > 0 {
          assert r[i] == distinct[i - 1];
        }
      }
    }
  }

  /** Adding one element at the end keeps the distinct list, or appends the new element. */
  lemma DistinctSnoc(xs: seq<string>, x: string)
    ensures Distinct(xs + [x]) == if x in Distinct(xs) then Distinct(xs) else Distinct(xs) + [x]
  {
    assert (xs + [x])[..|xs|] == xs;
  }

  /** The catalog's categories, exercise by exercise. */
  const CatalogCategoryList: seq<string> :=
    ["Upper Body", "Lower Body", "Core", "Cardio", "Cardio", "Full Body", "Upper Body", "Lower Body",
     "Upper Body", "Upper Body", "Lower Body", "Upper Body", "Core", "Full Body", "Upper Body"]

  lemma CatalogCategories()
    ensures Categories(ExerciseDatabase) == CatalogCategoryList
  {
  }

  /** Elements already listed add nothing to the distinct list. */
  lemma {:induction false} DistinctAbsorbs(xs: seq<string>, ys: seq<string>)
    requires forall y :: y in ys ==> y in xs
    ensures Distinct(xs + ys) == Distinct(xs)
    decreases |ys|
  {
    if ys != [] {
      var init, last := ys[..|ys| - 1], ys[|ys| - 1];
      assert forall y :: y in init ==> y in ys;
      DistinctAbsorbs(xs, init);
      assert xs + ys == (xs + init) + [last];
      assert last in xs + init;
      DistinctSnoc(xs + init, last);
    } else {
      assert xs + ys == xs;
    }
  }

  /** A list without repeats is its own distinct list. */
  lemma {:induction false} DistinctOfDistinct(xs: seq<string>)
    requires NoDuplicates(xs)
    ensures Distinct(xs) == xs
    decreases |xs|
  {
    if xs != [] {
      var init := xs[..|xs| - 1];
      assert NoDuplicates(init) by {
        forall i, j | 0 <= i < j < |init| ensures init[i] != init[j] {
          assert init[i] == xs[i] && init[j] == xs[j];
        }
      }
      DistinctOfDistinct(init);
      assert xs == init + [xs[|xs| - 1]];
    }
  }

  /** Four distinct elements, the fourth repeated, then a fifth new one. */
  lemma DistinctWithOneRepeat(u: string, l: string, c: string, d: string, f: string)
    requires NoDuplicates([u, l, c, d, f])
    ensures Distinct([u, l, c, d, d, f]) == [u, l, c, d, f]
  {
    var first := [u, l, c, d, f];
    assert first[0] == u && first[1] == l && first[2] == c && first[3] == d && first[4] == f;
    DistinctOfDistinct([u, l, c, d]);
    DistinctSnoc([u, l, c, d], d);
    assert [u, l, c, d] + [d] == [u, l, c, d, d];
    DistinctSnoc([u, l, c, d, d], f);
    assert [u, l, c, d, d] + [f] == [u, l, c, d, d, f];
    assert [u, l, c, d] + [f] == first;
  }

  /** The later nine categories all repeat one of the first six. */
  lemma LaterCategoriesRepeat()
    ensures forall y :: y in CatalogCategoryList[6..] ==> y in CatalogCategoryList[..6]
  {
    var cats := CatalogCategoryList;
    forall y | y in cats[6..] ensures y in cats[..6] {
      var i :| 0 <= i < 9 && cats[6..][i] == y;
      assert cats[6 + i] == y;
      assert y == cats[0] || y == cats[1] || y == cats[2] || y == cats[5];
    }
  }

  /** The category selector of the shipped catalog: "all", then five
      categories in order of first appearance. */
  lemma CatalogCategoryOptions()
    ensures CategoryOptions(ExerciseDatabase) == [All, "Upper Body", "Lower Body", "Core", "Cardio", "Full Body"]
  {
    CatalogCategories();
    CatalogDistinctCategories();
  }

  /** Five categories, in order of first appearance. */
  lemma CatalogDistinctCategories()
    ensures Distinct(CatalogCategoryList) == ["Upper Body", "Lower Body", "Core", "Cardio", "Full Body"]
  {
    var cats := CatalogCategoryList;
    var u, l, c, d, f := cats[0], cats[1], cats[2], cats[3], cats[5];
    assert u == "Upper Body" && l == "Lower Body" && c == "Core" && d == "Cardio" && f == "Full Body";
    assert NoDuplicates([u, l, c, d, f]) by {
      assert u[0] == 'U' && l[0] == 'L' && c[0] == 'C' && d[0] == 'C' && f[0] == 'F' && |c| != |d|;
    }
    DistinctWithOneRepeat(u, l, c, d, f);
    assert cats[..6] == [u, l, c, d, d, f];
    LaterCategoriesRepeat();
    DistinctAbsorbs(cats[..6], cats[6..]);
    assert cats[..6] + cats[6..] == cats;
  }
}
