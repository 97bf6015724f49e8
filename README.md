# RecipesPlusPlus: id allocation, listings and request validation

The RecipesPlusPlus API stores ingredients, recipes and users in a remote
key-value store. This project models the two parts of it that decide values
rather than move them.

**Allocator and listing** (`Shared/queries.py`, module `Queries`):
- `getAll*` lists a collection in ascending id order. Python's `sorted` is
  stable, so records with equal ids keep their stored order.
- `getNext*Id` returns the lowest non-negative id that is not in use:
  `min(set(range(0, max(ids) + 2)) - set(ids))`.
- The three copies of each (ingredients, recipes, users) are the same code,
  so each is modelled once, generic in the rest of the record.

**Request validation** (`RecipesPlusPlusApi/api.py`, modules `Ingredients`,
`Recipes` and `Users`, with the shared pieces in `RequestChecks`):
- Each `post` and `put` handler walks the parsed JSON body field by field.
- A field that breaks its rule raises a flag and appends its fragment to a
  message that starts with "Please fix the following values: ". The message
  ends with a suffix naming the optional fields.
- Three list fields are scanned element by element: a recipe's ingredient
  lines and instructions, and a user's recipe ids. Each scan stops at its
  first bad element.
- A flagged body is answered with `400` and the message. Otherwise the
  defaulted values are written to the store.
- Each validator is an imperative method proved equal to a specification
  function (`ValidateIngredient`, `ValidateRecipe`, `ValidateUser`). Lemmas
  state what that function accepts, what it keeps, what its messages
  contain, and that it round-trips.

JSON values are the datatype `JsonValues.Json`. It separates Python's `int`,
`bool` and `float`, so a check `type(x) != int` rejects `True` and `1.5` as
the source does. The ids of stored ingredients, units and recipes are
parameters of the validators, because the handlers fetch them from the
store. Whether the store write raises is a parameter of the handlers.

**Edge cases the code decides:**
- An empty collection has no next id. The store answers `None` for it and
  `getAll*` raises; a collection with no rows makes `max` raise.
  `Queries.NextId` returns `Err` in both cases.
- The next id is defined only when `max(ids) >= -1`. When every id is below
  -1, the candidate range is empty and `min` raises (`MinOfEmpty`).
- A user's `recipes` is optional and defaults to `[]`.

## Model

| member | source | states |
|---|---|---|
| Queries.Max | Shared/queries.py:12 | `max(ids)` of a non-empty list is an element of it and no element exceeds it |
| Queries.LowestFreeId | Shared/queries.py:12 | for a non-empty id list with `max(ids) >= -1`: the result is not in use, every non-negative id below it is in use, and it is at most `max(ids) + 1` |
| Queries.LowestFreeIsUnique | Shared/queries.py:12 | any id that is free, non-negative and has every smaller non-negative id in use is the allocated id |
| Queries.MaxDependsOnlyOnSet | Shared/queries.py:12 | `max` is the same for two id lists with the same members |
| Queries.LowestFreeDependsOnlyOnSet | Shared/queries.py:11-12 | the allocated id depends only on the set of ids in use, not on order or repetition |
| Queries.LowestFreeOfDenseIds | Shared/queries.py:12 | when the ids in use are exactly 0 .. n-1, the next id is n |
| Queries.LowestFreeExamples | Shared/queries.py:12 | ids {0,2,3} give 1 (a hole is reused); ids {0,1,2} give 3 |
| Queries.InsertById | Shared/queries.py:6 | inserting a row into an id-sorted list keeps it sorted and adds exactly that row |
| Queries.SortById | Shared/queries.py:6 | the result is sorted by id and is a permutation of the input |
| Queries.SortByIdIsStable | Shared/queries.py:6 | for every id, the rows carrying it appear in the same relative order as in the input |
| Queries.SortByIdIsDetermined | Shared/queries.py:6 | any ordering that is sorted by id and keeps stored order among equal ids equals SortById's result |
| Queries.GetAll | Shared/queries.py:2-7 | raises exactly when the store answers None; otherwise a permutation of the stored rows, sorted by id, stable |
| Queries.NextId | Shared/queries.py:9-12 | succeeds exactly for a present, non-empty collection whose largest id is at least -1; None, [] and ids all below -1 give their three errors; a success is the lowest free id, at most one above the largest |
| RequestChecks.CheckRequiredString | RecipesPlusPlusApi/api.py:93-95 | raises the flag and appends the fragment exactly when the field is missing, null, "" or not a str |
| RequestChecks.CheckOptionalString | RecipesPlusPlusApi/api.py:96-102 | reads the field or its default; raises the flag and appends the fragment exactly when it is present and not a str |
| RequestChecks.CheckOptionalInt | RecipesPlusPlusApi/api.py:251-257 | reads the field or its default; raises the flag and appends the fragment exactly when it is present and not an int |
| Ingredients.CheckIngredient | RecipesPlusPlusApi/api.py:90-109 | the flag-and-message code yields ValidateIngredient: the ingredient, or prefix + fragments + suffix |
| Ingredients.IngredientRejectedIff | RecipesPlusPlusApi/api.py:93-102 | a body is rejected exactly when name is not a non-empty str or image_url is present and not a str |
| Ingredients.IngredientAcceptedFields | RecipesPlusPlusApi/api.py:96-109 | an accepted ingredient keeps the body's name and image_url; a missing image_url becomes "" |
| Ingredients.IngredientRejectionMessage | RecipesPlusPlusApi/api.py:91-103 | spells out ValidateIngredient's rejection message: the prefix, the name fragment, the image_url fragment (each empty exactly when its rule holds), then the suffix; the code's building of it is CheckIngredient's contract |
| Ingredients.IngredientRoundTrip | RecipesPlusPlusApi/api.py:93-109 | the body of an ingredient validates back to it exactly when its name is non-empty |
| Ingredients.Post | RecipesPlusPlusApi/api.py:81-113 | the write happens exactly for an accepted body, with the defaulted fields; a rejection answers 400 with the message; a failing write answers "No ingredient added." |
| Ingredients.Put | RecipesPlusPlusApi/api.py:115-147 | as Post, updating record `id`; a failing write answers "No ingredient updated." |
| Recipes.LineFragmentEmptyIff | RecipesPlusPlusApi/api.py:196-237 | a line contributes no fragment exactly when it is an object with int ingredientId, unitId and quantity naming a stored ingredient and unit |
| Recipes.LineScanEmptyIff | RecipesPlusPlusApi/api.py:195-238 | the line scan reports nothing exactly when every line is accepted |
| Recipes.LineScanReportsFirstRejected | RecipesPlusPlusApi/api.py:195-238 | the line scan reports the fragment of the first rejected line and no other |
| Recipes.TypeErrorBeforeExistence | RecipesPlusPlusApi/api.py:208-221 | a non-int ingredientId or unitId gets its type detail whatever records exist; an int one gets "ID not valid" exactly when no record has it |
| Recipes.IngredientsErrorsEmptyIff | RecipesPlusPlusApi/api.py:186-238 | the ingredients slot is empty exactly when ingredients is a non-empty list of accepted lines |
| Recipes.RecipeAcceptedIff | RecipesPlusPlusApi/api.py:186-275 | a body is accepted exactly when every field rule holds |
| Recipes.RecipeAcceptedFields | RecipesPlusPlusApi/api.py:251-277 | an accepted recipe keeps the body's lines, instructions and name; calories and time default to -1 and image_url to "" |
| Recipes.RecipeRejectionMessage | RecipesPlusPlusApi/api.py:184-272 | spells out ValidateRecipe's rejection message: the prefix, then the fragments in the order ingredients, instructions, name, calories, image_url, time, then the suffix; the instructions, name, calories, image_url and time fragments are each empty exactly when their rule holds (ingredients: IngredientsErrorsEmptyIff); the code's building of it is CollectRecipeErrors' contract |
| Recipes.RecipeRoundTrip | RecipesPlusPlusApi/api.py:186-277 | the body of a named recipe with at least one line, naming only stored ingredients and units, validates back to it |
| Recipes.CheckLine | RecipesPlusPlusApi/api.py:196-237 | the per-line flags and the detail list yield the line's fragment |
| Recipes.ScanLines | RecipesPlusPlusApi/api.py:195-238 | the loop over lines, which stops at the first rejected line, yields the line scan |
| Recipes.ScanInstructions | RecipesPlusPlusApi/api.py:243-247 | the loop appends nothing exactly when every instruction is a str, and otherwise appends one "list of str" fragment |
| Recipes.CheckIngredients | RecipesPlusPlusApi/api.py:186-238 | appends the ingredients slot and raises the flag exactly when it is not empty |
| Recipes.CheckInstructions | RecipesPlusPlusApi/api.py:239-247 | appends the instructions slot and raises the flag exactly when it is not empty |
| Recipes.CollectRecipeErrors | RecipesPlusPlusApi/api.py:183-271 | the message is the prefix plus every field's slot in source order; the flag is up exactly when one is not empty; optional fields are read or defaulted |
| Recipes.CheckRecipe | RecipesPlusPlusApi/api.py:183-277 | the validation block yields ValidateRecipe |
| Recipes.Post | RecipesPlusPlusApi/api.py:174-282 | the write happens exactly for an accepted body, with the defaulted fields; a rejection answers 400 with the message; a failing write answers "No recipe added." |
| Recipes.Put | RecipesPlusPlusApi/api.py:284-392 | as Post, updating record `id`; a failing write answers "No recipe updated." |
| Users.ReferenceFragmentEmptyIff | RecipesPlusPlusApi/api.py:445-453 | an element of recipes contributes no fragment exactly when it is an int naming a stored recipe |
| Users.ReferenceScanEmptyIff | RecipesPlusPlusApi/api.py:445-453 | the recipes scan reports nothing exactly when every element is accepted |
| Users.ReferenceScanReportsFirstRejected | RecipesPlusPlusApi/api.py:445-453 | the scan reports only the first rejected element: the type fragment for a non-int, whatever recipes exist, else the "recipe ID not valid" fragment |
| Users.RecipesErrorsEmptyIff | RecipesPlusPlusApi/api.py:437-456 | the recipes slot is empty exactly when recipes is absent, or a list of stored recipe ids |
| Users.UserAcceptedIff | RecipesPlusPlusApi/api.py:431-460 | a body is accepted exactly when email and name are non-empty strs and recipes is absent or a list of stored recipe ids |
| Users.UserAcceptedFields | RecipesPlusPlusApi/api.py:431-462 | an accepted user keeps the body's email, name and recipe ids, each a stored recipe; a missing recipes becomes [] |
| Users.UserRejectionMessage | RecipesPlusPlusApi/api.py:429-457 | spells out ValidateUser's rejection message: the prefix, then the email, name and recipes fragments, then the suffix; the email and name fragments are each empty exactly when their rule holds (recipes: RecipesErrorsEmptyIff); the code's building of it is CheckUser's contract |
| Users.UserRoundTrip | RecipesPlusPlusApi/api.py:431-462 | the body of a user with non-empty email and name, listing only stored recipes, validates back to it |
| Users.ScanReferences | RecipesPlusPlusApi/api.py:445-453 | the loop that checks the type, then existence, and stops at the first failure yields the recipes scan |
| Users.CheckUser | RecipesPlusPlusApi/api.py:428-462 | the validation block yields ValidateUser |
| Users.Post | RecipesPlusPlusApi/api.py:419-467 | the write happens exactly for an accepted body, with the defaulted recipes; a rejection answers 400 with the message; a failing write answers "No user added." |
| Users.Put | RecipesPlusPlusApi/api.py:469-517 | as Post, updating record `id`; a failing write answers "No user updated." |

## Left out

- Request bodies that parse to something other than a JSON object: for a list or string body, Python's `in` and indexing do other things. The model's body is always an object.
- `json.loads` and the "Invalid JSON" answer: the model starts from a parsed body.
- The global lock around every handler, because the model has no concurrency.
- The store itself (Firebase), authentication and the token refresh scheduler. The records and ids the handlers read are parameters.
- A handler aborting because fetching the stored ingredients, units or recipes raised. The ids are given, so this cannot happen in the model.
- `addIngredient`, `updateIngredient`, `addRecipe`, `updateRecipe`, `addUser`, `updateUser`, `getAllUnits`, `getUnit` and `getUserGroceryList`, called at RecipesPlusPlusApi/api.py:108, 142, 192, 277, 387, 462, 512, 525, 528 and 539: they are not defined in Shared/queries.py and are not part of this model. A handler's write is returned as a value (`AddRecipe`, `UpdateUser`, ...), its failure is the parameter `writeRaises`, and the stored unit ids are a parameter of the recipe validator.
- `getIngredient`, `getRecipe`, `getUser` and the `remove*` functions of Shared/queries.py: they look a record up by id or delete it in the store, and decide no value the model covers.
- The GET and DELETE handlers, and the Units and Grocery resources: they only call the query functions above or in Shared/queries.py and return the result, or answer 400.
- RecipesPlusPlusWebApp/views.py and app.py: the web front end, which calls the API over HTTP.
- RecipesPlusPlusApi/main.py: the API's startup script (configuration, store sign-in, logging).
- Shared/functions.py: helpers that read configuration, connect to the store and refresh the sign-in token.
- Recipes.CheckRecipe: extra keys in an ingredient line are dropped. The source forwards the line dictionaries to the store as given; the model keeps only ingredientId, unitId and quantity (`LineItem`).
- Queries.GetAll: the store's answer is a list of rows with int ids. A record without an `id` key, or with a non-int id, is not modelled.
