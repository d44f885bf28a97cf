/**
 * The recipe composer behind `POST /api/recipes/generate`. Until a real
 * generator is connected it returns two fixed recipes whose titles are
 * templated on the first ingredient and the first preference.
 *
 * Money is kept in cents (6.25 is 625) so that no floating point is involved.
 */
module ApiComposer {
  import opened Common

  /** A recipe summary as the composer produces it and the client renders it. */
  datatype Recipe = Recipe(
    id: string,
    title: string,
    totalPrepTime: string,
    estimatedCostCents: int,
    missingItemsCount: nat,
    costEfficiencyCents: int)

  /** What a call to a composer does: return a list (a real generator may
      also return `null`, hence the option) or throw. */
  datatype Outcome = Returned(recipes: Option<seq<Recipe>>) | Threw(error: string)

  /** `list[0] || fallback`: an empty list has `undefined` at index 0, and an
      empty string is falsy, so both fall back. */
  function FirstOr(list: seq<string>, fallback: string): (r: string)
    ensures |list| > 0 && list[0] != "" ==> r == list[0]
    ensures (|list| == 0 || list[0] == "") ==> r == fallback
  {
    if |list| > 0 && list[0] != "" then list[0] else fallback
  }

  const FirstTitlePrefix := "AI Recipe: Quick "
  const FirstTitleSuffix := " Dish"
  const SecondTitlePrefix := "AI Recipe: "
  const SecondTitleSuffix := " Budget Meal"

  /** `generateRecipesFromAI(ingredients, preferences)`. Building the log line
      calls `ingredients.join` and then `preferences.join`, so a missing array
      (`undefined`) makes the call throw before any recipe is built. */
  function GenerateRecipesFromAI(ingredients: Option<seq<string>>, preferences: Option<seq<string>>): (out: Outcome)
    ensures out.Threw? <==> ingredients.None? || preferences.None?
    ensures out.Returned? ==> out.recipes.Some? && |out.recipes.value| == 2
    ensures out.Returned? ==>
      var rs := out.recipes.value;
      && rs[0].id == "AI_REC_1" && rs[1].id == "AI_REC_2"
      && rs[0].title == FirstTitlePrefix + FirstOr(ingredients.value, "Generic") + FirstTitleSuffix
      && rs[1].title == SecondTitlePrefix + FirstOr(preferences.value, "Default") + SecondTitleSuffix
      && rs[0].missingItemsCount == 0 && rs[1].missingItemsCount == 1
      && (forall k :: 0 <= k < 2 ==> rs[k].costEfficiencyCents == rs[k].estimatedCostCents)
  {
    if ingredients.None? then Threw("TypeError: Cannot read properties of undefined (reading 'join')")
    else if preferences.None? then Threw("TypeError: Cannot read properties of undefined (reading 'join')")
    else
      Returned(Some([
        Recipe("AI_REC_1", FirstTitlePrefix + FirstOr(ingredients.value, "Generic") + FirstTitleSuffix,
               "25 min", 625, 0, 625),
        Recipe("AI_REC_2", SecondTitlePrefix + FirstOr(preferences.value, "Default") + SecondTitleSuffix,
               "15 min", 400, 1, 400)
      ]))
  }

  /** Only the first ingredient and the first preference matter: two calls
      that agree on those (after the fallback) give the same recipes, whatever
      follows them in the lists. */
  lemma OnlyFirstElementsMatter(i1: seq<string>, p1: seq<string>, i2: seq<string>, p2: seq<string>)
    requires FirstOr(i1, "Generic") == FirstOr(i2, "Generic")
    requires FirstOr(p1, "Default") == FirstOr(p2, "Default")
    ensures GenerateRecipesFromAI(Some(i1), Some(p1)) == GenerateRecipesFromAI(Some(i2), Some(p2))
  {
  }

  /** Every title is non-empty and, for a non-empty first ingredient, names it. */
  lemma TitlesNameFirstIngredient(ingredients: seq<string>, preferences: seq<string>)
    requires |ingredients| > 0 && ingredients[0] != ""
    ensures var out := GenerateRecipesFromAI(Some(ingredients), Some(preferences));
      && out.Returned?
      && (forall k :: 0 <= k < |out.recipes.value| ==> out.recipes.value[k].title != "")
      && out.recipes.value[0].title[|FirstTitlePrefix|..|FirstTitlePrefix| + |ingredients[0]|] == ingredients[0]
  {
    var t := FirstTitlePrefix + ingredients[0] + FirstTitleSuffix;
    assert t[|FirstTitlePrefix|..|FirstTitlePrefix| + |ingredients[0]|] == ingredients[0];
  }
}
