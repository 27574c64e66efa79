/** The meal-recommendation chat bot: the table of traditional meals, the
    "information score" of the preference form, the decision to answer
    locally when the score is low, and the fixed-format local answer. The
    form widgets, the session history and the language-model call are not
    modelled; the random pick from the table is a parameter. */
module MealBot {
  import opened Seqs
  import opened Strings

  datatype Option<T> = None | Some(value: T)

  /** One row of the meal table: its name, its kind and the side it is
      served with. */
  datatype Meal = Meal(name: string, kind: string, base: string)

  /** `IRANIAN_MEALS`, the ten traditional meals the local answer picks from. */
  const IranianMeals: seq<Meal> := [
    Meal("Ghormeh Sabzi", "traditional", "rice"),
    Meal("Chelo Kebab", "traditional", "rice"),
    Meal("Gheymeh", "traditional", "rice"),
    Meal("Fesenjan", "traditional", "rice"),
    Meal("Tahcheen", "traditional", "rice"),
    Meal("Mirza Ghasemi", "traditional", "bread"),
    Meal("Kookoo Sabzi", "traditional", "bread"),
    Meal("Adas Polo", "traditional", "rice"),
    Meal("Kashk-e Bademjan", "traditional", "bread"),
    Meal("Zereshk Polo", "traditional", "rice")
  ]

  /** Every meal of the table is traditional and is served with rice or
      bread. */
  lemma TableIsTraditional()
    ensures |IranianMeals| == 10
    ensures forall i :: 0 <= i < |IranianMeals| ==> IranianMeals[i].kind == "traditional"
    ensures forall i :: 0 <= i < |IranianMeals| ==> IranianMeals[i].base in {"rice", "bread"}
  {
  }

  /** A string Python finds truthy after `.strip()`. */
  predicate IsFilled(s: string)
  {
    Strip(s) != []
  }

  function Min(a: nat, b: nat): nat
  {
    if a <= b then a else b
  }

  /** The ingredients counted by the score: the comma-separated pieces that
      are not blank. */
  function IngredientTokens(ingredients: string): (r: seq<string>)
    ensures forall i :: 0 <= i < |r| ==> IsFilled(r[i]) && ',' !in r[i]
  {
    Filter(SplitOn(ingredients, ','), IsFilled)
  }

  /** What the ingredient text adds to the score. */
  function IngredientPoints(ingredients: string): nat
  {
    if ingredients != "" && IsFilled(ingredients) then Min(|IngredientTokens(ingredients)|, 5) else 0
  }

  /** What one of the four select boxes adds to the score. */
  function FieldPoint(field: string): nat
  {
    if field != "" && field != "any" then 1 else 0
  }

  /** `info_score`: a rough measure of how much the user said. At most five
      points come from the ingredients and one from each of the four other
      fields. */
  function InfoScore(ingredients: string, mealTime: string, cuisineType: string, heaviness: string, base: string): (score: nat)
    ensures score <= 9
    ensures (forall i :: 0 <= i < |ingredients| ==> IsSpace(ingredients[i])) ==> score <= 4
  {
    StripEmptyIff(ingredients);
    IngredientPoints(ingredients) + FieldPoint(mealTime) + FieldPoint(cuisineType)
      + FieldPoint(heaviness) + FieldPoint(base)
  }

  /** Whitespace splits into no non-blank piece. */
  lemma BlankHasNoTokens(ingredients: string)
    requires forall i :: 0 <= i < |ingredients| ==> IsSpace(ingredients[i])
    ensures IngredientTokens(ingredients) == []
  {
    var pieces := SplitOn(ingredients, ',');
    SplitOnPiecesFrom(ingredients, ',');
    forall k | 0 <= k < |pieces| ensures !IsFilled(pieces[k]) {
      forall j | 0 <= j < |pieces[k]| ensures IsSpace(pieces[k][j]) {
        assert pieces[k][j] in ingredients;
      }
      StripEmptyIff(pieces[k]);
    }
    FilterNone(pieces, IsFilled);
  }

  /** The ingredient text contributes nothing when it is empty or only
      whitespace, and otherwise the number of its non-blank comma-separated
      pieces, capped at five. */
  lemma IngredientContribution(ingredients: string)
    ensures InfoScore(ingredients, "any", "any", "any", "any")
         == if forall i :: 0 <= i < |ingredients| ==> IsSpace(ingredients[i]) then 0
            else Min(|Filter(SplitOn(ingredients, ','), IsFilled)|, 5)
  {
    StripEmptyIff(ingredients);
  }

  /** Each select box adds one point when it holds a choice other than
      "any" and nothing when it is empty or "any", whatever the other fields
      hold. */
  lemma EachFieldAddsOneWhenSet(ingredients: string, mealTime: string, cuisineType: string, heaviness: string, base: string)
    ensures InfoScore(ingredients, mealTime, cuisineType, heaviness, base)
         == InfoScore(ingredients, "any", cuisineType, heaviness, base) + (if mealTime in {"", "any"} then 0 else 1)
    ensures InfoScore(ingredients, mealTime, cuisineType, heaviness, base)
         == InfoScore(ingredients, mealTime, "any", heaviness, base) + (if cuisineType in {"", "any"} then 0 else 1)
    ensures InfoScore(ingredients, mealTime, cuisineType, heaviness, base)
         == InfoScore(ingredients, mealTime, cuisineType, "any", base) + (if heaviness in {"", "any"} then 0 else 1)
    ensures InfoScore(ingredients, mealTime, cuisineType, heaviness, base)
         == InfoScore(ingredients, mealTime, cuisineType, heaviness, "any") + (if base in {"", "any"} then 0 else 1)
  {
  }

  /** The points from the ingredients are the number of non-blank pieces,
      capped at five, blank text included. */
  lemma IngredientPointsAreCappedTokens(ingredients: string)
    ensures IngredientPoints(ingredients) == Min(|IngredientTokens(ingredients)|, 5)
  {
    StripEmptyIff(ingredients);
    if !IsFilled(ingredients) {
      BlankHasNoTokens(ingredients);
    }
  }

  /** The pieces of `a + "," + t` are those of `a` followed by those of `t`. */
  lemma IngredientTokensAppend(a: string, t: string)
    ensures IngredientTokens(a + "," + t) == IngredientTokens(a) + IngredientTokens(t)
  {
    assert a + "," + t == a + [','] + t;
    SplitOnAppend(a, t, ',');
    FilterAppend(SplitOn(a, ','), SplitOn(t, ','), IsFilled);
  }

  /** Typing another ingredient after a comma never lowers the score. */
  lemma AddingIngredientNeverLowersScore(ingredients: string, extra: string, mealTime: string, cuisineType: string, heaviness: string, base: string)
    ensures InfoScore(ingredients + "," + extra, mealTime, cuisineType, heaviness, base)
         >= InfoScore(ingredients, mealTime, cuisineType, heaviness, base)
  {
    IngredientPointsAreCappedTokens(ingredients);
    IngredientPointsAreCappedTokens(ingredients + "," + extra);
    IngredientTokensAppend(ingredients, extra);
  }

  /** Below the cap, one more non-blank ingredient without a comma raises
      the score by exactly one. */
  lemma AddingIngredientBelowCapAddsOne(ingredients: string, extra: string, mealTime: string, cuisineType: string, heaviness: string, base: string)
    requires |IngredientTokens(ingredients)| < 5
    requires IsFilled(extra) && ',' !in extra
    ensures InfoScore(ingredients + "," + extra, mealTime, cuisineType, heaviness, base)
         == InfoScore(ingredients, mealTime, cuisineType, heaviness, base) + 1
  {
    IngredientPointsAreCappedTokens(ingredients);
    IngredientPointsAreCappedTokens(ingredients + "," + extra);
    IngredientTokensAppend(ingredients, extra);
    SplitOnWithoutSeparator(extra, ',');
    assert IngredientTokens(extra) == [extra];
  }

  /** The local answer is used when the score is below two. */
  predicate TakesFallback(score: nat)
  {
    score < 2
  }

  /** The sparsest form: empty ingredients and every select box at "any"
      score zero, so the local answer is used. */
  lemma SparseFormFallsBack()
    ensures InfoScore("", "any", "any", "any", "any") == 0
    ensures TakesFallback(InfoScore("", "any", "any", "any", "any"))
  {
  }

  const FallbackHeader: string := "FALLBACK RECOMMENDATION:\n1) "
  const NameBaseSeparator: string := " \U{2014} ("
  const FallbackTail: string :=
    ", traditional)\n   - Why: Classic, widely-liked, uses common pantry ingredients.\n"
    + "   - Recipe: 1) Prepare ingredients. 2) Cook slowly. 3) Serve with rice or bread.\n\n"
    + "(You provided very little info; showing a random Iranian traditional meal.)"

  /** `fallback_text`: the locally built answer naming one meal and its base. */
  function FallbackText(meal: Meal): (text: string)
    ensures "FALLBACK RECOMMENDATION:" <= text
  {
    assert "FALLBACK RECOMMENDATION:" <= FallbackHeader;
    FallbackHeader + meal.name + NameBaseSeparator + meal.base + FallbackTail
  }

  /** Index of the last `c` in `s`, or -1 when there is none. */
  function LastIndexOf(s: string, c: char): (i: int)
    ensures -1 <= i < |s|
    ensures forall j :: i < j < |s| ==> s[j] != c
    ensures i >= 0 ==> s[i] == c
  {
    if |s| == 0 then -1
    else if s[|s| - 1] == c then |s| - 1
    else LastIndexOf(s[..|s| - 1], c)
  }

  /** Reads a name and a base back out of `header + name + separator +
      base + tail`: the text between the header and the last em dash, and
      the text between the separator and the tail. */
  function ParseFramed(text: string, header: string, tail: string): Option<(string, string)>
  {
    var h := |header|;
    var t := |tail|;
    if |text| < h + t || text[..h] != header || text[|text| - t..] != tail then None
    else
      var middle := text[h..|text| - t];
      var i := LastIndexOf(middle, '\U{2014}');
      if i < 1 || i + 3 > |middle| || middle[i - 1..i + 3] != NameBaseSeparator then None
      else Some((middle[..i - 1], middle[i + 3..]))
  }

  /** Reads the meal name and base back out of a local answer. */
  function ParseFallback(text: string): Option<(string, string)>
  {
    ParseFramed(text, FallbackHeader, FallbackTail)
  }

  /** The last em dash of `name + separator + base` is the separator's when
      `base` has none. */
  lemma {:induction false} LastIndexOfBeforeBase(name: string, base: string)
    requires '\U{2014}' !in base
    ensures LastIndexOf(name + NameBaseSeparator + base, '\U{2014}') == |name| + 1
  {
    var s := name + NameBaseSeparator + base;
    if |base| == 0 {
      var s1 := name + " \U{2014} ";
      var s2 := name + " \U{2014}";
      assert s == s1 + "(";
      assert s[..|s| - 1] == s1 && s[|s| - 1] == '(';
      assert s1[..|s1| - 1] == s2 && s1[|s1| - 1] == ' ';
      assert s2[|s2| - 1] == '\U{2014}';
    } else {
      var shorter := base[..|base| - 1];
      assert s[..|s| - 1] == name + NameBaseSeparator + shorter;
      assert s[|s| - 1] == base[|base| - 1];
      assert base[|base| - 1] in base;
      LastIndexOfBeforeBase(name, shorter);
    }
  }

  /** Round trip for any header and tail: any name and a base without an
      em dash are read back from the framed text. */
  lemma ParseFramedRoundTrip(header: string, tail: string, name: string, base: string)
    requires '\U{2014}' !in base
    ensures ParseFramed(header + name + NameBaseSeparator + base + tail, header, tail) == Some((name, base))
  {
    var middle := name + NameBaseSeparator + base;
    var text := header + name + NameBaseSeparator + base + tail;
    assert text == header + middle + tail;
    SliceThree(header, middle, tail);
    SliceThree(name, NameBaseSeparator, base);
    LastIndexOfBeforeBase(name, base);
  }

  /** The three parts of a concatenation can be sliced back out. */
  lemma SliceThree(p: string, m: string, q: string)
    ensures (p + m + q)[..|p|] == p
    ensures (p + m + q)[|p|..|p| + |m|] == m
    ensures (p + m + q)[|p| + |m|..] == q
  {
  }

  /** Round trip: the local answer for a meal whose base has no em dash
      gives back that meal's name and base. */
  lemma ParseFallbackText(meal: Meal)
    requires '\U{2014}' !in meal.base
    ensures ParseFallback(FallbackText(meal)) == Some((meal.name, meal.base))
  {
    ParseFramedRoundTrip(FallbackHeader, FallbackTail, meal.name, meal.base);
  }

  /** No base of the table contains an em dash. */
  lemma TableBasesHaveNoDash()
    ensures forall i :: 0 <= i < |IranianMeals| ==> '\U{2014}' !in IranianMeals[i].base
  {
    TableIsTraditional();
    assert '\U{2014}' !in "rice";
    assert '\U{2014}' !in "bread";
  }

  /** The values handed to the prompt template. */
  datatype PromptInputs = PromptInputs(
    ingredients: string,
    mealTime: string,
    cuisineType: string,
    heaviness: string,
    base: string,
    includeRecipe: string)

  /** What the user submitted with the "Recommend meals" button. */
  datatype Form = Form(
    ingredients: string,
    mealTime: string,
    cuisineType: string,
    heaviness: string,
    base: string,
    includeRecipe: bool)

  /** Either the local answer, or a request to the language model. */
  datatype Reply = Fallback(text: string) | AskModel(inputs: PromptInputs)

  /** Python's `str(b)` on a boolean. */
  function BoolText(b: bool): string
  {
    if b then "True" else "False"
  }

  /** The handler of the "Recommend meals" button. `pick` stands for the
      index `random.choice` draws from the meal table. A low score yields
      the local answer for the picked meal, whose name and base can be read
      back from it; otherwise the text fields go to the model unchanged and
      the recipe flag as `str(include_recipe)`. */
  function Recommend(form: Form, pick: nat): (r: Reply)
    requires pick < |IranianMeals|
    ensures r.Fallback? <==> InfoScore(form.ingredients, form.mealTime, form.cuisineType, form.heaviness, form.base) < 2
    ensures r.Fallback? ==> "FALLBACK RECOMMENDATION:" <= r.text
    ensures r.Fallback? ==> ParseFallback(r.text) == Some((IranianMeals[pick].name, IranianMeals[pick].base))
    ensures r.AskModel? ==>
              && r.inputs.ingredients == form.ingredients
              && r.inputs.mealTime == form.mealTime
              && r.inputs.cuisineType == form.cuisineType
              && r.inputs.heaviness == form.heaviness
              && r.inputs.base == form.base
              && r.inputs.includeRecipe == BoolText(form.includeRecipe)
  {
    var score := InfoScore(form.ingredients, form.mealTime, form.cuisineType, form.heaviness, form.base);
    if TakesFallback(score) then
      TableBasesHaveNoDash();
      ParseFallbackText(IranianMeals[pick]);
      Fallback(FallbackText(IranianMeals[pick]))
    else
      AskModel(PromptInputs(form.ingredients, form.mealTime, form.cuisineType, form.heaviness, form.base,
                            BoolText(form.includeRecipe)))
  }
}
