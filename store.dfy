/**
 * The MySQL tables the recipe routes read and write, as plain sequences of
 * rows in table order, and the statements the routes issue against them.
 * Which awaited step of a handler fails (the pool cannot hand out a
 * connection, a statement errors) is an input: a set of `DbStep`s.
 */
module Store {
  import opened Common

  /** A `recipes` row; `SELECT *` returns every column, the ones the model
      does not name are kept in `otherColumns`. */
  datatype RecipeRow = RecipeRow(
    id: string,
    title: string,
    totalPrepTime: string,
    totalEstimatedCostCents: int,
    otherColumns: map<string, string>)

  /** A `recipe_ingredients` row. */
  datatype IngredientRow = IngredientRow(recipeId: string, ingredientName: string, quantity: string)

  /** A `saved_recipes` row; `created_at` is filled in by the database. */
  datatype SavedRow = SavedRow(userId: string, recipeId: string, recipeTitle: Option<string>, createdAt: int)

  /** What `SELECT recipe_id, recipe_title, created_at FROM saved_recipes` returns per row. */
  datatype SavedListing = SavedListing(recipeId: string, recipeTitle: Option<string>, createdAt: int)

  datatype Tables = Tables(
    recipes: seq<RecipeRow>,
    recipeIngredients: seq<IngredientRow>,
    savedRecipes: seq<SavedRow>)

  /** The awaited database steps of the handlers, any of which may throw. */
  datatype DbStep = GetConnection | SelectRecipe | SelectIngredients | InsertSaved | SelectSaved

  /** `SELECT * FROM recipes WHERE id = ?`. */
  function RecipesWithId(db: Tables, id: string): (rows: seq<RecipeRow>)
    ensures forall r :: r in rows <==> r in db.recipes && r.id == id
  {
    Filter(db.recipes, (r: RecipeRow) => r.id == id)
  }

  /** `SELECT ingredient_name, quantity FROM recipe_ingredients WHERE recipe_id = ?`,
      in table order. */
  function IngredientsOf(db: Tables, id: string): (rows: seq<IngredientRow>)
    ensures forall r :: r in rows <==> r in db.recipeIngredients && r.recipeId == id
    ensures forall r: IngredientRow :: r.recipeId == id ==> multiset(rows)[r] == multiset(db.recipeIngredients)[r]
    ensures IsSubsequence(rows, db.recipeIngredients)
  {
    Filter(db.recipeIngredients, (r: IngredientRow) => r.recipeId == id)
  }

  /** The `saved_recipes` rows `WHERE user_id = ?`, in table order. */
  function SavedBy(rows: seq<SavedRow>, userId: string): (mine: seq<SavedRow>)
    ensures forall r :: r in mine <==> r in rows && r.userId == userId
    ensures forall r: SavedRow :: r.userId == userId ==> multiset(mine)[r] == multiset(rows)[r]
  {
    Filter(rows, (r: SavedRow) => r.userId == userId)
  }

  /** The column list of the saved-recipes query. */
  function Listing(rows: seq<SavedRow>): (out: seq<SavedListing>)
    ensures |out| == |rows|
    ensures forall k :: 0 <= k < |rows| ==>
      out[k] == SavedListing(rows[k].recipeId, rows[k].recipeTitle, rows[k].createdAt)
  {
    if rows == [] then []
    else [SavedListing(rows[0].recipeId, rows[0].recipeTitle, rows[0].createdAt)] + Listing(rows[1..])
  }

  /** The pair (user, recipe) already has a row. */
  predicate IsSaved(rows: seq<SavedRow>, userId: string, recipeId: string) {
    exists r :: r in rows && r.userId == userId && r.recipeId == recipeId
  }

  /** The schema's `UNIQUE(user_id, recipe_id)`: at most one row per pair. */
  predicate UniqueSaved(rows: seq<SavedRow>) {
    forall i, j :: 0 <= i < j < |rows| ==>
      rows[i].userId != rows[j].userId || rows[i].recipeId != rows[j].recipeId
  }

  datatype InsertResult = Inserted(rows: seq<SavedRow>) | DuplicateEntry

  /** `INSERT INTO saved_recipes (user_id, recipe_id, recipe_title) VALUES (?, ?, ?)`
      under the uniqueness constraint: a second row for a pair is refused with
      `ER_DUP_ENTRY`; otherwise the row is appended, stamped with `now`. */
  function InsertSavedRow(rows: seq<SavedRow>, userId: string, recipeId: string,
                          recipeTitle: Option<string>, now: int): (r: InsertResult)
    ensures r.DuplicateEntry? <==> IsSaved(rows, userId, recipeId)
    ensures r.Inserted? ==> r.rows == rows + [SavedRow(userId, recipeId, recipeTitle, now)]
    ensures r.Inserted? && UniqueSaved(rows) ==> UniqueSaved(r.rows)
  {
    if IsSaved(rows, userId, recipeId) then DuplicateEntry
    else
      var added := rows + [SavedRow(userId, recipeId, recipeTitle, now)];
      assert forall k :: 0 <= k < |rows| ==> rows[k] in rows;
      Inserted(added)
  }
}
