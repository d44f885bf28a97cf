# Budget recipe generator — a verified model of its core

The application lets a user enter the ingredients in their pantry and tick
dietary preferences. It asks an Express server for recipe suggestions, and
the server gets them from a mock "AI composer". Users can view a recipe's
details, save a recipe, list their saved recipes, and log in or register on
a profile page.

This Dafny project models the core of that system:

- **`/api/recipes` router** (`server/routes/recipeRoutes.js`), module
  `RecipeRoutes`. Each of its four handlers is a pure function to a status
  code, a JSON body and, for the save handler, the new tables:
  - the generate handler takes the request and a composer;
  - the details and saved-list handlers take the request, the database
    tables and the set of database steps that throw;
  - the save handler takes those plus the insertion time `now`.
- **Tables and SQL statements** (module `Store`) and the
  `ORDER BY created_at DESC` of the saved list (module `SavedOrder`).
- **Mock composer** (`server/utils/apiComposer.js`), module `ApiComposer`.
- **Pantry page** (`client/pages/index.js`):
  - its list reducers are functions in `PantryLists`;
  - its state and handlers are the class `HomePage.Home`;
  - `handleGenerateRecipe` is split at its `await` into `BeginGenerate` and
    `CompleteGenerate`.
- **`PantryInput` component** (`client/components/PantryInput.jsx`), module
  `PantryInputComponent`:
  - the text box is the class `PantryInput`;
  - trimming and lower-casing are in `Text`;
  - the preference list and the two disabled conditions are functions.
- **Profile page** (`client/pages/profile.js`), the class
  `ProfilePage.Profile`. It is a state machine over the page's six state
  variables. The `isLoggedIn` effect is the method `LoginEffect`, and the
  invariant `Valid` ties `user` to `isLoggedIn`.

Modelling conventions:

- A JSON field that is absent or `null` is `None`. The one exception is the
  save body's `recipeTitle` (`RecipeRoutes.TitleField`). There the two
  differ: the `mysql2` driver stores `null` as SQL `NULL`, but refuses an
  `undefined` bind value with a `TypeError`, so that request goes to the
  catch block.
- Ids are strings. JavaScript truthiness of a string field is `Truthy`:
  present and non-empty.
- Money is kept in whole cents, so 6.25 is 625.
- The database and the network are inputs:
  - the tables are a `Tables` value;
  - a failing `await` is a `DbStep` in the `faults` set;
  - the database's `created_at` timestamp is the `now` parameter;
  - the composer is a function value;
  - an axios call ends in an outcome value that the caller supplies.

## Model

| member | source | states |
|---|---|---|
| Common.Filter | client/pages/index.js:26 | `Array.prototype.filter`: keeps exactly the entries the predicate accepts, each as often as before, in their original order (a subsequence) |
| Common.FilterAppend | client/pages/index.js:26 | filtering distributes over concatenation |
| Common.FilterKeepsAll | client/pages/index.js:26 | a filter that accepts every entry returns the list unchanged |
| Common.FilterNoDuplicates | client/pages/index.js:26 | filtering a duplicate-free list gives a duplicate-free list |
| Text.LeadingWhitespace | client/components/PantryInput.jsx:18 | counts the whitespace characters that `trim` removes at the front |
| Text.TrailingWhitespace | client/components/PantryInput.jsx:18 | counts the whitespace characters that `trim` removes at the back |
| Text.Trim | client/components/PantryInput.jsx:18-19 | `String.prototype.trim`, with whitespace as ECMAScript defines it (`IsWhitespace`: the WhiteSpace and LineTerminator code points): the result is a contiguous slice with no whitespace at either end; everything cut off is whitespace; the result is empty exactly when the input is all whitespace |
| Text.TrimOfTrimmed | client/components/PantryInput.jsx:18-19 | trimming a trimmed string changes nothing |
| Text.LowerChar | client/components/PantryInput.jsx:19 | maps each letter A–Z to the letter at the same place in a–z and leaves every other character alone |
| Text.ToLower | client/components/PantryInput.jsx:19 | each character lower-cased in place (`LowerChar` at every position): same length, no upper-case letter left, whitespace unchanged in place; a string without upper-case letters is a fixed point |
| Text.Normalize | client/components/PantryInput.jsx:18-19 | `trim().toLowerCase()`: the trimmed text with every character lower-cased in place; empty exactly when the input is all whitespace, otherwise non-empty, trimmed and lower-case |
| Text.NormalizeIdempotent | client/components/PantryInput.jsx:18-19 | normalising a normalised item changes nothing |
| PantryLists.AddItem | client/pages/index.js:19-23 | the item is appended exactly when it is non-empty and not yet present; old entries keep their places; no duplicate is ever introduced |
| PantryLists.RemoveItem | client/pages/index.js:25-27 | every occurrence of the item goes; every other entry stays as often as before and in order |
| PantryLists.RemoveItemNoDuplicates | client/pages/index.js:25-27 | removal keeps the pantry duplicate-free |
| PantryLists.RemoveAbsentItem | client/pages/index.js:25-27 | removing an item that is not there changes nothing |
| PantryLists.RemoveItemIdempotent | client/pages/index.js:25-27 | removing twice is removing once |
| PantryLists.RemoveAppended | client/pages/index.js:19-27 | removing a just-added item restores the list |
| PantryLists.TogglePreference | client/pages/index.js:29-35 | membership of the toggled preference flips; every other entry keeps its count; an absent preference is appended at the end |
| PantryLists.ToggleNoDuplicates | client/pages/index.js:29-35 | toggling keeps the preference list duplicate-free |
| PantryLists.ToggleTwiceRestores | client/pages/index.js:29-35 | ticking and then unticking a box restores the exact list |
| ApiComposer.FirstOr | server/utils/apiComposer.js:19 | `list[0] \|\| fallback`: the first entry when it exists and is non-empty, the fallback otherwise |
| ApiComposer.GenerateRecipesFromAI | server/utils/apiComposer.js:6-36 | throws exactly when either list is missing (the `join` calls on line 14); otherwise returns the two mock recipes with their ids, their templated titles, their missing-item counts, and a cost efficiency equal to their cost |
| ApiComposer.OnlyFirstElementsMatter | server/utils/apiComposer.js:16-33 | two calls that agree on the first ingredient and the first preference (after the fallbacks) return the same recipes |
| ApiComposer.TitlesNameFirstIngredient | server/utils/apiComposer.js:19 | every title is non-empty, and the first title contains the first ingredient right after its prefix |
| Store.RecipesWithId | server/routes/recipeRoutes.js:50 | selects exactly the `recipes` rows with the id |
| Store.IngredientsOf | server/routes/recipeRoutes.js:59 | selects exactly the `recipe_ingredients` rows of the recipe, each as often as it occurs in the table, in table order (a subsequence) |
| Store.SavedBy | server/routes/recipeRoutes.js:117 | selects exactly the user's `saved_recipes` rows, each as often as it occurs in the table |
| Store.Listing | server/routes/recipeRoutes.js:117 | projects each row to (recipe id, title, created at), one entry per row, in order |
| Store.InsertSavedRow | server/routes/recipeRoutes.js:92-93 | refused as a duplicate exactly when the (user, recipe) pair already has a row; otherwise the row is appended; the uniqueness of pairs is preserved |
| SavedOrder.PrependNewest | server/routes/recipeRoutes.js:117 | an entry at least as new as a newest-first list can go in front of it |
| SavedOrder.InsertNewestFirst | server/routes/recipeRoutes.js:117 | inserting into a newest-first list keeps it newest first and adds exactly that entry |
| SavedOrder.SortNewestFirst | server/routes/recipeRoutes.js:117 | `ORDER BY created_at DESC`: the result is newest first and a permutation of the input |
| RecipeRoutes.MockComposer | server/routes/recipeRoutes.js:8 | the composer the router imports throws exactly when the request has no preference list |
| RecipeRoutes.GenerateRecipeList | server/routes/recipeRoutes.js:12-39 | 400 exactly when the ingredient list is missing or empty; 500 exactly when the composer throws; 200 with the composer's list when it is non-empty, and with `[]` when it is null or empty |
| RecipeRoutes.SuccessCarriesRecipes | server/routes/recipeRoutes.js:23-33 | every 2xx answer of the generate route carries a recipe list, whatever the request and the composer |
| RecipeRoutes.NoIngredientsNeverComposes | server/routes/recipeRoutes.js:15-17 | the 400 answer does not depend on the composer |
| RecipeRoutes.MockGenerateOutcome | server/routes/recipeRoutes.js:21-38 | with the mock composer, a request with ingredients gets the two mock recipes if it has preferences, and a 500 if not |
| RecipeRoutes.IngredientLines | server/routes/recipeRoutes.js:65-70 | one line per ingredient row, in order, with its name and quantity, each marked as in the pantry |
| RecipeRoutes.GetRecipeDetails | server/routes/recipeRoutes.js:43-77 | 404 exactly when the connection and the recipe lookup succeed and no row has the id; 500 exactly when a step that is reached throws; otherwise 200 with a row of that id and its ingredient lines |
| RecipeRoutes.SaveRecipe | server/routes/recipeRoutes.js:81-106 | 400 exactly when `recipeId` or `userId` is falsy; 409 exactly when the pair is already saved and the insert runs; 500 with "Failed to save recipe." exactly when a database step throws or the body has no `recipeTitle`; 201 appends exactly the new row; nothing else changes the tables; pair uniqueness is kept |
| RecipeRoutes.StoredTitle | server/routes/recipeRoutes.js:92-93 | a `null` title is stored as `NULL`, a string title as itself |
| RecipeRoutes.AbsentTitleNeverSaves | server/routes/recipeRoutes.js:89-105 | a body with ids but no `recipeTitle` never saves: 500 with the tables unchanged once corrected, and no answer as written |
| RecipeRoutes.SaveRecipeAsWritten | server/routes/recipeRoutes.js:98-105 | as written, every path into the catch block sends nothing; the other paths answer as `SaveRecipe` does |
| RecipeRoutes.AsWrittenNeverConflicts | server/routes/recipeRoutes.js:98-102 | as written, no save is ever answered with 409 or 500 |
| RecipeRoutes.SaveTwiceAsWrittenHasNoAnswer | server/routes/recipeRoutes.js:99 | saving the same pair twice: the corrected handler answers 201 then 409, while the handler as written leaves the second request without an answer |
| RecipeRoutes.SaveTwiceConflicts | server/routes/recipeRoutes.js:93-101 | a new pair saves once with 201; the same request again gets 409 and leaves the tables alone |
| RecipeRoutes.GetSavedRecipes | server/routes/recipeRoutes.js:110-128 | 500 exactly when a step throws; otherwise 200 with exactly the user's saved rows (as a multiset), projected, newest first |
| RecipeRoutes.NothingSavedListsEmpty | server/routes/recipeRoutes.js:117-122 | a user with no saved rows gets `200 []` |
| RecipeRoutes.ListingAppend | server/routes/recipeRoutes.js:117 | projecting a list with one more row gives one more entry |
| RecipeRoutes.OnlyNewEntryHasRecipe | server/routes/recipeRoutes.js:117 | a permutation of a list plus one new entry holds that entry exactly once |
| RecipeRoutes.ListingAfterInsert | server/routes/recipeRoutes.js:92-117 | a row appended for a user ends the user's listing |
| RecipeRoutes.ListingLacksUnsaved | server/routes/recipeRoutes.js:117 | a pair that is not saved has no entry in the user's listing |
| RecipeRoutes.SaveThenList | server/routes/recipeRoutes.js:81-128 | after saving a new pair, the user's list holds exactly one entry for that recipe, with the saved title and time |
| PantryInputComponent.AllPreferencesDistinct | client/components/PantryInput.jsx:13 | the preference vocabulary has six distinct entries |
| PantryInputComponent.AddButtonDisabled | client/components/PantryInput.jsx:40 | "Add Item" is disabled exactly when the box is empty |
| PantryInputComponent.GenerateButtonDisabled | client/components/PantryInput.jsx:87 | "Generate Recipes" is enabled exactly when the page is not loading and the pantry is non-empty |
| PantryInputComponent.PreferenceChecked | client/components/PantryInput.jsx:74 | a box is checked exactly when its preference is in the list |
| PantryInputComponent.ToggleFlipsOneCheckbox | client/components/PantryInput.jsx:74-75 | a click flips its own checkbox and no other |
| PantryInputComponent.WhitespaceEnablesAddButSubmitsNothing | client/components/PantryInput.jsx:18-40 | whitespace-only text leaves "Add Item" enabled, yet it normalises to nothing |
| PantryInputComponent.PantryInput.constructor | client/components/PantryInput.jsx:12 | the box starts empty |
| PantryInputComponent.PantryInput.Change | client/components/PantryInput.jsx:34 | the box holds what was typed |
| PantryInputComponent.PantryInput.Submit | client/components/PantryInput.jsx:15-22 | whitespace-only text submits nothing and stays in the box; other text is submitted trimmed and lower-cased (non-empty, trimmed, no upper case) and the box is cleared |
| HomePage.OutcomeOf | client/pages/index.js:55-60 | axios resolves with `response.data` for a 2xx answer and rejects otherwise; the model reads that data as a recipe list, which `RecipeRoutes.SuccessCarriesRecipes` shows every 2xx answer of the route is |
| HomePage.PageRequestGetsMockRecipes | client/pages/index.js:40-58 | every request the page sends gets the two mock recipes from the server |
| HomePage.RemoveKeepsNormalized | client/pages/index.js:25-27 | removal keeps every pantry entry normalised |
| HomePage.InputKeepsPantryWellFormed | client/pages/index.js:19-23 | the input box feeding `handleAddItem` keeps the pantry normalised and duplicate-free, whatever is typed |
| HomePage.Home.constructor | client/pages/index.js:10-15 | all four pieces of state start empty or false |
| HomePage.Home.AddItem | client/pages/index.js:19-23 | the pantry becomes `PantryLists.AddItem` of the old pantry; nothing else changes; duplicate-freedom is kept |
| HomePage.Home.RemoveItem | client/pages/index.js:25-27 | the pantry becomes `PantryLists.RemoveItem` of the old pantry and stays normalised; nothing else changes |
| HomePage.Home.TogglePreference | client/pages/index.js:29-35 | the preferences become `PantryLists.TogglePreference` of the old ones; nothing else changes |
| HomePage.Home.SubmitInput | client/pages/index.js:101-109 | a submission from the input box adds the normalised text or nothing; the pantry stays normalised and duplicate-free |
| HomePage.Home.BeginGenerate | client/pages/index.js:39-58 | an empty pantry sends nothing and changes nothing; otherwise loading starts, the results are cleared, and the request carries the pantry and the preferences, so it passes the route's validation |
| HomePage.Home.CompleteGenerate | client/pages/index.js:53-66 | the results are replaced only on success; loading ends on every path |
| ProfilePage.Endpoint | client/pages/profile.js:43 | `login` exactly in the login view, `register` otherwise |
| ProfilePage.RefusalMessage | client/pages/profile.js:57 | the server's message, or "An unexpected error occurred." when there is none |
| ProfilePage.RejectionMessage | client/pages/profile.js:60 | the server's error text, or "Failed to login/register. Check server logs." naming the endpoint that was tried |
| ProfilePage.Profile.constructor | client/pages/profile.js:10-15 | logged out, no user, login view, empty form, no message, not loading |
| ProfilePage.Profile.ShowsProfile | client/pages/profile.js:178 | the profile is shown exactly when logged in |
| ProfilePage.Profile.LoginEffect | client/pages/profile.js:26-32 | when logged in, the user becomes the mock user; nothing else changes |
| ProfilePage.Profile.Change | client/pages/profile.js:34-36 | only the named form field changes |
| ProfilePage.Profile.BeginSubmit | client/pages/profile.js:38-47 | loading starts, the message is cleared, and the request goes to `http://localhost:5000/api/users/` plus the endpoint of the current view, with the form data |
| ProfilePage.Profile.CompleteSubmit | client/pages/profile.js:47-64 | success logs in and shows the server's message; if the request was sent from the register view, the page switches to the login view, and otherwise the view stays as it is now (the user may have toggled while the request was in flight); a refusal or a rejection leaves the login state and the view alone and shows the server's text or the fallback; loading ends on every path; `user` follows `isLoggedIn` |
| ProfilePage.Profile.ToggleView | client/pages/profile.js:122 | flips the view and clears the message, nothing else |
| ProfilePage.Profile.Logout | client/pages/profile.js:67-72 | logged out, no user, all three form fields empty, a fixed message; the view and loading are unchanged |

## Left out

- Text.ToLower: only the ASCII letters A–Z are lowered. `toLowerCase` also lowers other Unicode letters, and the model does not cover them.
- Text.LowerChar: ASCII only, for the same reason.
- Ids and `userId` are strings. A numeric id such as `0`, which JavaScript treats as falsy, is not distinguished from a non-empty string.
- RecipeRoutes.GenerateRecipeList: a non-array `ingredients` value, such as a string or an object with a `length`, is not modelled. The list is a sequence or absent.
- Releasing connections to the pool is not modelled. `getRecipeDetails` never releases its connection when a statement throws (lines 50 and 59). The model records only the responses.
- `require('../utils/Apicomposer')` (server/routes/recipeRoutes.js:8) names the file with a different case from `apiComposer.js`. On a case-sensitive file system the server would not start. The model assumes the import resolves.
- `server/server.js` (Express wiring, CORS, `listen`) and `server/db/connection.js`, including its pool settings and hard-coded credentials, are not part of this model.
- The `/api/users` login and register routes are not part of this model. Their answers are the `AuthOutcome` input.
- `client/pages/saved.js`, `client/pages/results.js`, `client/pages/recipe/[id].js` and `client/components/RecipeCard.jsx` are not part of this model. They render, and RecipeCard uses floating point.
- JSX rendering, `alert`, `console.log` and `console.error` are not modelled. The profile page's error message is wrapped in a styled `<span>`; the model keeps only its text.
- SQL leaves open the order of saved rows with equal `created_at`. The model fixes one order, and its contracts claim only "newest first" plus a permutation. The order of ingredient rows is likewise unspecified in SQL; the model uses table order.
- Money is in cents: 6.25 and 4.00 become 625 and 400.
- The `mysql2` driver is not part of this model. `RecipeRoutes.TitleField` relies on its documented refusal of `undefined` bind values, which sends a save without `recipeTitle` to the catch block.
- RecipeRoutes.SaveRecipeAsWritten: `None` stands for "this handler sends nothing". Both framework outcomes are left out: the process exit (Express 4) and the default 500 (Express 5).
- React's batching of state updates and the render between a state change and the `isLoggedIn` effect are not modelled. `CompleteSubmit` and `Logout` end with the effect, so `Valid` holds between handlers.
- Interleavings are not modelled. While a request is in flight, handlers may run between `BeginSubmit` and `CompleteSubmit`, or between `BeginGenerate` and `CompleteGenerate`. The model allows any calls in between but proves nothing about concurrent requests.
- HomePage.Home.CompleteGenerate: the data delivered on success is any list that axios hands over. The connection to the route is stated separately by `OutcomeOf` and `PageRequestGetsMockRecipes`.

## Findings

| source | as written | input that shows it | evidently intended | confidence | as-written member | corrected member |
|---|---|---|---|---|---|---|
| server/routes/recipeRoutes.js:99 | the catch block calls `connection.release()`, but `connection` was declared with `const` inside the `try` block, so the call throws a `ReferenceError` and the handler sends no response. What the client then sees depends on the Express version, which is not part of this model. Under Express 4 the handler's rejected promise goes unhandled; on Node 15 or later that ends the server process. Express 5 would answer with its default 500 | saving the same `(recipeId, userId)` twice: the second insert raises `ER_DUP_ENTRY` | answer 409 "Recipe is already saved by this user." for a duplicate and 500 for other database errors | high (not executed) | RecipeRoutes.SaveRecipeAsWritten, RecipeRoutes.SaveTwiceAsWrittenHasNoAnswer | RecipeRoutes.SaveRecipe, RecipeRoutes.SaveTwiceConflicts |
