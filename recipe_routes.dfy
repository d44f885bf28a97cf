/**
 * The four handlers of the `/api/recipes` router. Each validates its request,
 * awaits the composer or the database, and answers with a status code and a
 * JSON body. The database is a `Tables` value plus the set of awaited steps
 * that throw; the composer is a function value that returns or throws.
 */
module RecipeRoutes {
  import opened Common
  import opened Store
  import opened SavedOrder
  import ApiComposer

  /** One entry of the `ingredients` list of a recipe detail. */
  datatype IngredientLine = IngredientLine(name: string, quantity: string, isPantry: bool)

  /** The JSON bodies the handlers send. `Detail` is `{...recipe, ingredients}`. */
  datatype Body =
    | Recipes(recipes: seq<ApiComposer.Recipe>)
    | Detail(recipe: RecipeRow, ingredients: seq<IngredientLine>)
    | SaveAck(message: string, saved: bool)
    | SavedList(rows: seq<SavedListing>)
    | Error(error: string)

  datatype Response = Response(status: nat, body: Body)

  const NoIngredientsError := "No ingredients provided to generate recipes."
  const GenerateFailedError := "Failed to generate recipes due to a server error."
  const RecipeNotFoundError := "Recipe not found."
  const DetailsFailedError := "Failed to fetch recipe details."
  const MissingFieldsError := "Missing required fields (recipeId or userId)."
  const SavedMessage := "Recipe saved successfully!"
  const AlreadySavedError := "Recipe is already saved by this user."
  const SaveFailedError := "Failed to save recipe."
  const ListFailedError := "Failed to retrieve saved recipes."

  // ---------------------------------------------------------------------
  // POST /generate

  /** The body of `POST /api/recipes/generate`; a field that is absent or
      `null` is `None`. */
  datatype GenerateRequest = GenerateRequest(ingredients: Option<seq<string>>, preferences: Option<seq<string>>)

  /** A recipe composer as the handler calls it: with the validated
      ingredient list and the preferences exactly as the request carried them. */
  type Composer = (seq<string>, Option<seq<string>>) -> ApiComposer.Outcome

  /** The composer the router is wired to. */
  function MockComposer(ingredients: seq<string>, preferences: Option<seq<string>>): (out: ApiComposer.Outcome)
    ensures out.Threw? <==> preferences.None?
  {
    ApiComposer.GenerateRecipesFromAI(Some(ingredients), preferences)
  }

  /** `!ingredients || ingredients.length === 0` is false. */
  predicate HasIngredients(req: GenerateRequest) {
    req.ingredients.Some? && |req.ingredients.value| > 0
  }

  /** `generateRecipeList`. 400 exactly when the ingredient list is missing or
      empty; 500 exactly when the composer throws; otherwise 200 with the
      composer's list unchanged, or with `[]` when that list is `null` or empty. */
  function GenerateRecipeList(req: GenerateRequest, compose: Composer): (resp: Response)
    ensures resp.status == 200 || resp.status == 400 || resp.status == 500
    ensures resp.status == 400 <==> !HasIngredients(req)
    ensures resp.status == 400 ==> resp.body == Error(NoIngredientsError)
    ensures HasIngredients(req) ==>
      var out := compose(req.ingredients.value, req.preferences);
      && (resp.status == 500 <==> out.Threw?)
      && (resp.status == 500 ==> resp.body == Error(GenerateFailedError))
      && (out.Returned? && out.recipes.Some? && |out.recipes.value| > 0 ==> resp == Response(200, Recipes(out.recipes.value)))
      && (out.Returned? && (out.recipes.None? || out.recipes.value == []) ==> resp == Response(200, Recipes([])))
  {
    if !HasIngredients(req) then Response(400, Error(NoIngredientsError))
    else
      match compose(req.ingredients.value, req.preferences)
      case Threw(_) => Response(500, Error(GenerateFailedError))
      case Returned(recipes) =>
        if recipes.Some? && |recipes.value| > 0 then Response(200, Recipes(recipes.value))
        else Response(200, Recipes([]))
  }

  /** A request without ingredients is answered without consulting the
      composer: the response is the same whatever the composer would do. */
  /** Every 2xx answer of the generate route carries a recipe list, whatever
      the request and the composer: a client that takes the body of any 2xx
      answer as recipes is never handed anything else. */
  lemma SuccessCarriesRecipes(req: GenerateRequest, compose: Composer)
    ensures var resp := GenerateRecipeList(req, compose);
            200 <= resp.status < 300 ==> resp.body.Recipes?
  {
  }

  /** A request without ingredients is answered without consulting the
      composer: the response is the same whatever the composer would do. */
  lemma NoIngredientsNeverComposes(req: GenerateRequest, c1: Composer, c2: Composer)
    requires !HasIngredients(req)
    ensures GenerateRecipeList(req, c1) == GenerateRecipeList(req, c2)
    ensures GenerateRecipeList(req, c1) == Response(400, Error(NoIngredientsError))
  {
  }

  /** With the mock composer, a request that has ingredients gets the two
      mock recipes when it carries a preference list, and a 500 when it does
      not (the composer's `preferences.join` throws and the route does not
      check for the field). */
  lemma MockGenerateOutcome(req: GenerateRequest)
    requires HasIngredients(req)
    ensures var resp := GenerateRecipeList(req, MockComposer);
      && (req.preferences.None? ==> resp == Response(500, Error(GenerateFailedError)))
      && (req.preferences.Some? ==>
            && resp.status == 200 && resp.body.Recipes?
            && |resp.body.recipes| == 2
            && resp.body.recipes[0].id == "AI_REC_1" && resp.body.recipes[1].id == "AI_REC_2")
  {
  }

  // ---------------------------------------------------------------------
  // GET /:id

  /** The `ingredients` list of a recipe detail: `ingredientRows.map(...)`. */
  function IngredientLines(rows: seq<IngredientRow>): (lines: seq<IngredientLine>)
    ensures |lines| == |rows|
    ensures forall k :: 0 <= k < |rows| ==> lines[k] == IngredientLine(rows[k].ingredientName, rows[k].quantity, true)
  {
    seq(|rows|, k requires 0 <= k < |rows| => IngredientLine(rows[k].ingredientName, rows[k].quantity, true))
  }

  /** Some `recipes` row has this id. */
  predicate RecipeExists(db: Tables, id: string) {
    exists r :: r in db.recipes && r.id == id
  }

  /** `getRecipeDetails`. 404 exactly when the connection and the recipe lookup succeeded and no recipe row
      has the id, with nothing but the error in the body; 500 when an awaited
      step that was reached throws; otherwise 200 with a row of that id and
      one ingredient line per `recipe_ingredients` row of the id, in row
      order, each marked as in the pantry. */
  function GetRecipeDetails(id: string, db: Tables, faults: set<DbStep>): (resp: Response)
    ensures resp.status == 200 || resp.status == 404 || resp.status == 500
    ensures resp.status == 404 <==>
      GetConnection !in faults && SelectRecipe !in faults && !RecipeExists(db, id)
    ensures resp.status == 404 ==> resp.body == Error(RecipeNotFoundError)
    ensures resp.status == 500 <==>
      GetConnection in faults || SelectRecipe in faults || (RecipeExists(db, id) && SelectIngredients in faults)
    ensures resp.status == 500 ==> resp.body == Error(DetailsFailedError)
    ensures resp.status == 200 ==>
      var rows := IngredientsOf(db, id);
      && resp.body.Detail?
      && resp.body.recipe in db.recipes && resp.body.recipe.id == id
      && |resp.body.ingredients| == |rows|
      && forall k :: 0 <= k < |rows| ==>
           && resp.body.ingredients[k].name == rows[k].ingredientName
           && resp.body.ingredients[k].quantity == rows[k].quantity
           && resp.body.ingredients[k].isPantry
  {
    if GetConnection in faults || SelectRecipe in faults then Response(500, Error(DetailsFailedError))
    else
      var found := RecipesWithId(db, id);
      if |found| == 0 then
        assert !RecipeExists(db, id);
        Response(404, Error(RecipeNotFoundError))
      else if SelectIngredients in faults then
        assert found[0] in found;
        Response(500, Error(DetailsFailedError))
      else
        assert found[0] in found;
        Response(200, Detail(found[0], IngredientLines(IngredientsOf(db, id))))
  }

  // ---------------------------------------------------------------------
  // POST /save

  /** The `recipeTitle` field of a save body. Absent (`undefined`) and `null`
      differ here: the `mysql2` driver binds `null` as SQL `NULL` but rejects
      an `undefined` bind value with a `TypeError` before the statement runs. */
  datatype TitleField = TitleAbsent | TitleNull | Title(text: string)

  /** The `recipe_title` column value a bindable title field stores. */
  function StoredTitle(f: TitleField): (stored: Option<string>)
    requires !f.TitleAbsent?
    ensures stored.None? <==> f.TitleNull?
    ensures f.Title? ==> stored == Some(f.text)
  {
    if f.Title? then Some(f.text) else None
  }

  /** The body of `POST /api/recipes/save`. For the two ids an absent and a
      `null` field are both `None`: both fail the same truthiness check. */
  datatype SaveRequest = SaveRequest(recipeId: Option<string>, userId: Option<string>, recipeTitle: TitleField)

  /** JavaScript truthiness of an optional string field. */
  predicate Truthy(v: Option<string>) {
    v.Some? && v.value != ""
  }

  predicate HasSaveFields(req: SaveRequest) {
    Truthy(req.recipeId) && Truthy(req.userId)
  }

  /** A response together with the tables after the handler ran. */
  datatype Handled = Handled(response: Response, db: Tables)

  /** `saveRecipe` with the error mapping its catch block is meant to perform.
      400 without touching the tables when `recipeId` or `userId` is falsy;
      201 after inserting exactly the row (user, recipe, title) when the pair
      is new; 409 when the pair is already saved; 500 when a database step
      throws for another reason, which includes a body without `recipeTitle`
      (the driver refuses the `undefined` bind value). Only a 201
      changes the tables, and only by that one appended row, so the
      uniqueness of (user, recipe) pairs is kept. */
  function SaveRecipe(req: SaveRequest, db: Tables, faults: set<DbStep>, now: int): (h: Handled)
    ensures h.response.status in {201, 400, 409, 500}
    ensures h.response.status == 400 <==> !HasSaveFields(req)
    ensures h.response.status == 400 ==> h.response.body == Error(MissingFieldsError)
    ensures h.response.status != 201 ==> h.db == db
    ensures h.response.status == 201 ==>
      && h.response.body == SaveAck(SavedMessage, true)
      && !req.recipeTitle.TitleAbsent?
      && h.db == db.(savedRecipes := db.savedRecipes
                       + [SavedRow(req.userId.value, req.recipeId.value, StoredTitle(req.recipeTitle), now)])
    ensures h.response.status == 409 <==>
      HasSaveFields(req) && GetConnection !in faults && InsertSaved !in faults && !req.recipeTitle.TitleAbsent?
      && IsSaved(db.savedRecipes, req.userId.value, req.recipeId.value)
    ensures h.response.status == 409 ==> h.response.body == Error(AlreadySavedError)
    ensures h.response.status == 500 ==> h.response.body == Error(SaveFailedError)
    ensures h.response.status == 500 <==>
      HasSaveFields(req) && (GetConnection in faults || InsertSaved in faults || req.recipeTitle.TitleAbsent?)
    ensures UniqueSaved(db.savedRecipes) ==> UniqueSaved(h.db.savedRecipes)
  {
    if !HasSaveFields(req) then Handled(Response(400, Error(MissingFieldsError)), db)
    else if GetConnection in faults || InsertSaved in faults || req.recipeTitle.TitleAbsent? then
      Handled(Response(500, Error(SaveFailedError)), db)
    else
      match InsertSavedRow(db.savedRecipes, req.userId.value, req.recipeId.value, StoredTitle(req.recipeTitle), now)
      case DuplicateEntry => Handled(Response(409, Error(AlreadySavedError)), db)
      case Inserted(rows) => Handled(Response(201, SaveAck(SavedMessage, true)), db.(savedRecipes := rows))
  }

  /** `saveRecipe` as written. Its catch block starts with
      `connection.release()`, but `connection` is a `const` of the `try` block
      and is not in scope there: the catch block throws a `ReferenceError`
      before it sends anything, so every database error leaves the request
      without a response (`None`). */
  function SaveRecipeAsWritten(req: SaveRequest, db: Tables, faults: set<DbStep>, now: int): (h: Option<Handled>)
    ensures h.None? <==> HasSaveFields(req) && SaveRecipe(req, db, faults, now).response.status != 201
    ensures h.Some? ==> h.value == SaveRecipe(req, db, faults, now)
  {
    if !HasSaveFields(req) then Some(Handled(Response(400, Error(MissingFieldsError)), db))
    else if GetConnection in faults || InsertSaved in faults || req.recipeTitle.TitleAbsent? then None
    else
      match InsertSavedRow(db.savedRecipes, req.userId.value, req.recipeId.value, StoredTitle(req.recipeTitle), now)
      case DuplicateEntry => None
      case Inserted(rows) => Some(Handled(Response(201, SaveAck(SavedMessage, true)), db.(savedRecipes := rows)))
  }

  /** As written, a save never answers 409 or 500. */
  lemma AsWrittenNeverConflicts(req: SaveRequest, db: Tables, faults: set<DbStep>, now: int)
    ensures var h := SaveRecipeAsWritten(req, db, faults, now);
      h.Some? ==> h.value.response.status == 201 || h.value.response.status == 400
  {
  }

  /** The input that shows the defect: saving the same pair twice. The
      corrected handler answers 201 and then 409; as written, the second
      request gets no response at all. */
  lemma SaveTwiceAsWrittenHasNoAnswer()
    ensures var db := Tables([], [], []);
            var req := SaveRequest(Some("AI_REC_1"), Some("1"), Title("AI Recipe: Quick chicken Dish"));
            var first := SaveRecipe(req, db, {}, 10);
            && first.response.status == 201
            && SaveRecipe(req, first.db, {}, 11).response.status == 409
            && SaveRecipeAsWritten(req, first.db, {}, 11).None?
  {
    var db := Tables([], [], []);
    var req := SaveRequest(Some("AI_REC_1"), Some("1"), Title("AI Recipe: Quick chicken Dish"));
    var first := SaveRecipe(req, db, {}, 10);
    assert first.db.savedRecipes[0] in first.db.savedRecipes;
  }

  /** Saving a pair that is not saved yet succeeds once; the same request
      again is a 409 conflict that leaves the tables alone. */
  lemma SaveTwiceConflicts(req: SaveRequest, db: Tables, now1: int, now2: int)
    requires HasSaveFields(req) && !req.recipeTitle.TitleAbsent?
    requires !IsSaved(db.savedRecipes, req.userId.value, req.recipeId.value)
    ensures var first := SaveRecipe(req, db, {}, now1);
            var second := SaveRecipe(req, first.db, {}, now2);
            && first.response.status == 201
            && second.response.status == 409
            && second.db == first.db
  {
    var first := SaveRecipe(req, db, {}, now1);
    var rows := first.db.savedRecipes;
    assert rows[|rows| - 1] in rows;
  }

  /** A body without `recipeTitle` never saves: whether or not the pair is
      already saved, the insert is refused before it reaches the table. As
      written, such a request gets no answer at all. */
  lemma AbsentTitleNeverSaves(recipeId: string, userId: string, db: Tables, faults: set<DbStep>, now: int)
    requires recipeId != "" && userId != ""
    ensures var req := SaveRequest(Some(recipeId), Some(userId), TitleAbsent);
            && SaveRecipe(req, db, faults, now) == Handled(Response(500, Error(SaveFailedError)), db)
            && SaveRecipeAsWritten(req, db, faults, now).None?
  {
  }

  // ---------------------------------------------------------------------
  // GET /saved/:userId

  /** `getSavedRecipes`: 500 when an awaited step throws; otherwise 200 with
      exactly the saved rows of the user (as a multiset), projected to
      recipe id, title and time, newest first. */
  function GetSavedRecipes(userId: string, db: Tables, faults: set<DbStep>): (resp: Response)
    ensures resp.status == 200 || resp.status == 500
    ensures resp.status == 500 <==> GetConnection in faults || SelectSaved in faults
    ensures resp.status == 500 ==> resp.body == Error(ListFailedError)
    ensures resp.status == 200 ==>
      && resp.body.SavedList?
      && NewestFirst(resp.body.rows)
      && multiset(resp.body.rows) == multiset(Listing(SavedBy(db.savedRecipes, userId)))
  {
    if GetConnection in faults || SelectSaved in faults then Response(500, Error(ListFailedError))
    else Response(200, SavedList(SortNewestFirst(Listing(SavedBy(db.savedRecipes, userId)))))
  }

  /** A user with no saved rows gets an empty list, not an error. */
  lemma NothingSavedListsEmpty(userId: string, db: Tables)
    requires forall r :: r in db.savedRecipes ==> r.userId != userId
    ensures GetSavedRecipes(userId, db, {}) == Response(200, SavedList([]))
  {
    assert SavedBy(db.savedRecipes, userId) == [];
  }

  lemma {:induction false} ListingAppend(rows: seq<SavedRow>, row: SavedRow)
    ensures Listing(rows + [row]) == Listing(rows) + [SavedListing(row.recipeId, row.recipeTitle, row.createdAt)]
  {
  }

  /** A list that is a permutation of `before + [entry]`, where no entry of
      `before` has `entry`'s recipe id, holds `entry` once and nothing else
      with that recipe id. */
  lemma OnlyNewEntryHasRecipe(before: seq<SavedListing>, entry: SavedListing, rows: seq<SavedListing>)
    requires forall e :: e in before ==> e.recipeId != entry.recipeId
    requires multiset(rows) == multiset(before + [entry])
    ensures entry in rows && multiset(rows)[entry] == 1
    ensures forall e :: e in rows && e.recipeId == entry.recipeId ==> e == entry
  {
    assert multiset(before + [entry]) == multiset(before) + multiset{entry};
    assert entry !in before;
    assert entry in multiset(rows);
    forall e | e in rows && e.recipeId == entry.recipeId ensures e == entry {
      assert e in multiset(rows);
    }
  }

  /** A row appended for the user shows up at the end of the user's listing. */
  lemma ListingAfterInsert(rows: seq<SavedRow>, row: SavedRow)
    ensures Listing(SavedBy(rows + [row], row.userId))
         == Listing(SavedBy(rows, row.userId)) + [SavedListing(row.recipeId, row.recipeTitle, row.createdAt)]
  {
    FilterAppend(rows, [row], (r: SavedRow) => r.userId == row.userId);
    ListingAppend(SavedBy(rows, row.userId), row);
  }

  /** When the pair is not saved, no entry of the user's listing has that recipe. */
  lemma ListingLacksUnsaved(rows: seq<SavedRow>, userId: string, recipeId: string)
    requires !IsSaved(rows, userId, recipeId)
    ensures forall e :: e in Listing(SavedBy(rows, userId)) ==> e.recipeId != recipeId
  {
    var mine := SavedBy(rows, userId);
    var before := Listing(mine);
    forall e | e in before ensures e.recipeId != recipeId {
      var k :| 0 <= k < |before| && before[k] == e;
      assert mine[k] in mine;
    }
  }

  /** Round trip: after a successful save, the user's saved list holds exactly
      one entry for that recipe, carrying the saved title and time. */
  lemma SaveThenList(req: SaveRequest, db: Tables, now: int)
    requires HasSaveFields(req) && !req.recipeTitle.TitleAbsent?
    requires !IsSaved(db.savedRecipes, req.userId.value, req.recipeId.value)
    ensures var h := SaveRecipe(req, db, {}, now);
            var resp := GetSavedRecipes(req.userId.value, h.db, {});
            var entry := SavedListing(req.recipeId.value, StoredTitle(req.recipeTitle), now);
            && h.response.status == 201
            && resp.status == 200
            && entry in resp.body.rows
            && multiset(resp.body.rows)[entry] == 1
            && forall e :: e in resp.body.rows && e.recipeId == req.recipeId.value ==> e == entry
  {
    var h := SaveRecipe(req, db, {}, now);
    var u, rid := req.userId.value, req.recipeId.value;
    var row := SavedRow(u, rid, StoredTitle(req.recipeTitle), now);
    assert h.db.savedRecipes == db.savedRecipes + [row];
    ListingAfterInsert(db.savedRecipes, row);
    ListingLacksUnsaved(db.savedRecipes, u, rid);
    var resp := GetSavedRecipes(u, h.db, {});
    OnlyNewEntryHasRecipe(Listing(SavedBy(db.savedRecipes, u)), SavedListing(rid, StoredTitle(req.recipeTitle), now), resp.body.rows);
  }
}
