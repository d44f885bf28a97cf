/**
 * The pantry page (`Home`): its four pieces of state, the handlers that
 * update them, and the request it sends to `POST /api/recipes/generate`.
 * The handler that awaits the network is split at the `await`: `BeginGenerate`
 * runs up to the request, `CompleteGenerate` runs from the answer on, so the
 * state while the request is in flight is visible.
 */
module HomePage {
  import opened Common
  import opened Text
  import PantryLists
  import opened PantryInputComponent
  import ApiComposer
  import RecipeRoutes

  /** How the axios call ends: resolved with `response.data`, or rejected
      (no answer, or a status outside 2xx). */
  datatype GenerateOutcome = Delivered(data: seq<ApiComposer.Recipe>) | RequestFailed

  /** What axios makes of the route's answer. */
  function OutcomeOf(resp: RecipeRoutes.Response): (out: GenerateOutcome)
    ensures out.Delivered? <==> 200 <= resp.status < 300 && resp.body.Recipes?
    ensures out.Delivered? ==> out.data == resp.body.recipes
  {
    if 200 <= resp.status < 300 && resp.body.Recipes? then Delivered(resp.body.recipes) else RequestFailed
  }

  /** Every request the page sends passes the route's validation and carries
      a preference list, so against the mock composer it always comes back
      with the two mock recipes, never a 400 or a 500. */
  lemma PageRequestGetsMockRecipes(pantryItems: seq<string>, dietaryPreferences: seq<string>)
    requires pantryItems != []
    ensures var resp := RecipeRoutes.GenerateRecipeList(
              RecipeRoutes.GenerateRequest(Some(pantryItems), Some(dietaryPreferences)),
              RecipeRoutes.MockComposer);
            var out := OutcomeOf(resp);
            out.Delivered? && |out.data| == 2
  {
    RecipeRoutes.MockGenerateOutcome(RecipeRoutes.GenerateRequest(Some(pantryItems), Some(dietaryPreferences)));
  }

  /** Every pantry entry is as the input box produces it. */
  predicate AllNormalized(items: seq<string>) {
    forall k :: 0 <= k < |items| ==> IsNormalized(items[k])
  }

  /** Removal keeps every remaining entry as it was, so the pantry stays normalised. */
  lemma RemoveKeepsNormalized(items: seq<string>, item: string)
    requires AllNormalized(items)
    ensures AllNormalized(PantryLists.RemoveItem(items, item))
  {
    var r := PantryLists.RemoveItem(items, item);
    forall k | 0 <= k < |r| ensures IsNormalized(r[k]) {
      assert r[k] in items;
      var j :| 0 <= j < |items| && items[j] == r[k];
    }
  }

  /** The pantry as the input box and `handleAddItem` build it together:
      starting from a pantry whose entries are normalised and distinct, a
      submission keeps both properties, whatever was typed. */
  lemma InputKeepsPantryWellFormed(items: seq<string>, typed: string)
    requires AllNormalized(items) && NoDuplicates(items)
    ensures var next := if AllWhitespace(typed) then items else PantryLists.AddItem(items, Normalize(typed));
            AllNormalized(next) && NoDuplicates(next)
  {
    if !AllWhitespace(typed) {
      var next := PantryLists.AddItem(items, Normalize(typed));
      forall k | 0 <= k < |next| ensures IsNormalized(next[k]) {
        if k < |items| {
          assert next[k] == next[..|items|][k];
        }
      }
    }
  }

  class Home {
    var pantryItems: seq<string>
    var dietaryPreferences: seq<string>
    var recipeResults: seq<ApiComposer.Recipe>
    var isLoading: bool

    /** Neither list ever holds an entry twice. */
    ghost predicate Valid()
      reads this
    {
      NoDuplicates(pantryItems) && NoDuplicates(dietaryPreferences)
    }

    constructor ()
      ensures Valid()
      ensures pantryItems == [] && dietaryPreferences == [] && recipeResults == [] && !isLoading
    {
      pantryItems, dietaryPreferences, recipeResults, isLoading := [], [], [], false;
    }

    /** `handleAddItem`. */
    method AddItem(item: string)
      requires Valid()
      modifies this
      ensures Valid()
      ensures pantryItems == PantryLists.AddItem(old(pantryItems), item)
      ensures dietaryPreferences == old(dietaryPreferences)
      ensures recipeResults == old(recipeResults) && isLoading == old(isLoading)
    {
      if item != "" && item !in pantryItems {
        pantryItems := pantryItems + [item];
      }
    }

    /** `handleRemoveItem`. */
    method RemoveItem(item: string)
      requires Valid()
      modifies this
      ensures Valid()
      ensures pantryItems == PantryLists.RemoveItem(old(pantryItems), item)
      ensures AllNormalized(old(pantryItems)) ==> AllNormalized(pantryItems)
      ensures dietaryPreferences == old(dietaryPreferences)
      ensures recipeResults == old(recipeResults) && isLoading == old(isLoading)
    {
      PantryLists.RemoveItemNoDuplicates(pantryItems, item);
      if AllNormalized(pantryItems) {
        RemoveKeepsNormalized(pantryItems, item);
      }
      pantryItems := PantryLists.RemoveItem(pantryItems, item);
    }

    /** `handleTogglePreference`. */
    method TogglePreference(pref: string)
      requires Valid()
      modifies this
      ensures Valid()
      ensures dietaryPreferences == PantryLists.TogglePreference(old(dietaryPreferences), pref)
      ensures pantryItems == old(pantryItems)
      ensures recipeResults == old(recipeResults) && isLoading == old(isLoading)
    {
      PantryLists.ToggleNoDuplicates(dietaryPreferences, pref);
      if pref in dietaryPreferences {
        dietaryPreferences := PantryLists.RemoveItem(dietaryPreferences, pref);
      } else {
        dietaryPreferences := dietaryPreferences + [pref];
      }
    }

    /** The input box submitted into `onAddItem={handleAddItem}`. Whatever the
        user types, the pantry stays duplicate-free and every entry stays
        non-empty, trimmed and lower-case. */
    method SubmitInput(form: PantryInput)
      requires Valid()
      modifies this, form
      ensures Valid()
      ensures AllNormalized(old(pantryItems)) ==> AllNormalized(pantryItems)
      ensures AllWhitespace(old(form.newItem)) ==> pantryItems == old(pantryItems) && form.newItem == old(form.newItem)
      ensures !AllWhitespace(old(form.newItem)) ==>
        pantryItems == PantryLists.AddItem(old(pantryItems), Normalize(old(form.newItem))) && form.newItem == ""
      ensures dietaryPreferences == old(dietaryPreferences)
      ensures recipeResults == old(recipeResults) && isLoading == old(isLoading)
    {
      var added := form.Submit();
      if added.Some? {
        AddItem(added.value);
      }
    }

    /** `handleGenerateRecipe` up to the `await`. An empty pantry sends
        nothing and changes nothing. Otherwise loading is switched on, the old
        results are cleared, and the request carries the current pantry and
        preferences; it always passes the route's validation. */
    method BeginGenerate() returns (request: Option<RecipeRoutes.GenerateRequest>)
      modifies this
      ensures old(pantryItems) == [] ==>
        && request.None?
        && isLoading == old(isLoading) && recipeResults == old(recipeResults)
      ensures old(pantryItems) != [] ==>
        && request == Some(RecipeRoutes.GenerateRequest(Some(pantryItems), Some(dietaryPreferences)))
        && RecipeRoutes.HasIngredients(request.value)
        && isLoading && recipeResults == []
      ensures pantryItems == old(pantryItems) && dietaryPreferences == old(dietaryPreferences)
    {
      if |pantryItems| == 0 {
        request := None;
        return;
      }
      isLoading := true;
      recipeResults := [];
      request := Some(RecipeRoutes.GenerateRequest(Some(pantryItems), Some(dietaryPreferences)));
    }

    /** `handleGenerateRecipe` from the answer on: the results are replaced
        only on success, and loading is off on every path (`finally`). */
    method CompleteGenerate(outcome: GenerateOutcome)
      modifies this
      ensures !isLoading
      ensures recipeResults == if outcome.Delivered? then outcome.data else old(recipeResults)
      ensures pantryItems == old(pantryItems) && dietaryPreferences == old(dietaryPreferences)
    {
      if outcome.Delivered? {
        recipeResults := outcome.data;
      }
      isLoading := false;
    }
  }
}
