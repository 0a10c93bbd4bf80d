# Recipe backend core, modelled in Dafny

This project models the in-memory logic of a recipe-sharing backend. Users
publish recipes made of ingredients, each recipe tagged. They favorite recipes, put them in
a shopping cart and subscribe to authors. The shopping list is downloaded as a
list of ingredients where lines with the same name are merged.

The model covers four parts:

- **The records** (`models.dfy`, module `Models`):
  - tags, ingredients, recipes, the recipe/ingredient join rows with their amounts, favorites, cart entries and subscriptions;
  - their declared constraints: field lengths, `amount >= 1`, `cooking_time >= 1`, unique tag fields, a unique `(recipe, ingredient)` pair;
  - the cascade when a recipe is deleted, and the newest-first ordering of recipes.
- **The recipe view set** (`views.dfy`, module `Views`):
  - which serializer a request method gets;
  - when query filtering is skipped;
  - which recipes the shopping-list download reads;
  - the download's consolidation loop, as a method with loops. It is proved against the independent definition of the consolidated list in `shopping_list.dfy` (module `ShoppingList`): distinct names in first-seen order, a per-name sum of amounts, and the unit of the first line with that name.
- **The serializers** (`serializers.dfy`, module `Serializers`; `text.dfy`, module `Text`, for the string operations):
  - the ingredient field checks and the duplicate-id scan;
  - the presence checks;
  - the join rows a write builds;
  - the data-URI header of an uploaded image;
  - the `recipes_limit` prefix;
  - the subscription, favorite and cart validation rules.
- **The recipe write and the add/remove endpoints**, as classes over mutable tables:
  - `recipe_store.dfy` (module `RecipeWrite`): recipe create and update, including update's clear-then-reinsert of the join rows;
  - `mixins.dfy` (module `Mixins`): the favorite/cart and subscription add/remove view sets, with their 201/204/400/404 answers.

`common.dfy` holds the `Option`, `Result` and `Outcome` wrappers.

The endpoint is named `download_shopping_cart`, and an unused mixin with an action of the same name, at `backend/api/utils.py:10-21`, reads the user's shopping cart; no view set includes that mixin.
The code at `backend/api/views.py:132` reads the user's favorites instead.
The model follows the code (`Views.DownloadRecipesAsWritten`) and reports the mismatch under Findings.
The consolidation method takes the recipes' ingredient lines as a parameter, so it is independent of that selection.

## Model

| member | source | states |
|---|---|---|
| Views.DownloadShoppingCart | backend/api/views.py:131-158 | the nested loops build exactly the consolidated list of all lines; its names are distinct and equal the input's names, and the total amount is conserved |
| Views.MergeRecipe | backend/api/views.py:136-157 | the inner loop over one recipe's lines extends the list of the earlier lines to the list of all lines so far |
| Views.MergeLine | backend/api/views.py:140-157 | one line goes to an empty list, or is added to every entry of the same name (no `break`), or is appended when no entry matched |
| ShoppingList.AddTo | backend/api/views.py:148-151 | the scan without `break` keeps the list's length (what it changes is stated by the two lemmas below) |
| ShoppingList.AddToChangesOne | backend/api/views.py:148-151 | while names are distinct, the scan without `break` changes exactly the one matching entry, and only its amount |
| ShoppingList.AddToAbsent | backend/api/views.py:148-152 | a line whose name is absent changes no entry, so it is appended |
| ShoppingList.ConsolidatedSnoc | backend/api/views.py:136-157 | one more line either adds its amount to the entry of its name or appends itself |
| ShoppingList.ConsolidatedSnocPresent | backend/api/views.py:148-151 | a line of a name already met only adds its amount to that name's entry |
| ShoppingList.ConsolidatedSnocAbsent | backend/api/views.py:152-157 | a line of a new name becomes a new last entry with its own amount and unit |
| ShoppingList.FirstSeen | backend/api/views.py:141-157 | the distinct names of the lines, each once, no more than there are lines |
| ShoppingList.FirstPos | backend/api/views.py:149 | the position of the first line with a given name, and no earlier line has that name; it is in range iff the name occurs |
| ShoppingList.Consolidated | backend/api/views.py:133-157 | one entry per first-seen name, in that order |
| ShoppingList.EntryMeaning | backend/api/views.py:137-157 | each entry's amount sums every line of its name, and its unit is that of the first such line |
| ShoppingList.NamesDistinctAndComplete | backend/api/views.py:140-157 | the list's names are pairwise distinct and are exactly the names of the input lines |
| ShoppingList.TotalAddTo | backend/api/views.py:150 | adding to the one matching entry raises the list total by the line's amount |
| ShoppingList.ConservesTotal | backend/api/views.py:137-157 | the amounts of the list add up to the amounts of all input lines |
| ShoppingList.ConsolidatedExtends | backend/api/views.py:141-157 | more lines never remove, reorder, rename or re-unit an existing entry |
| ShoppingList.FirstSeenOrder | backend/api/views.py:141-157 | an earlier entry's name first occurs before a later entry's name |
| ShoppingList.ConsolidatedOfDistinct | backend/api/views.py:140-157 | a list whose names are already distinct consolidates to itself |
| ShoppingList.Idempotent | backend/api/views.py:140-157 | consolidating a consolidated list changes nothing |
| ShoppingList.CountsDistinctNames | backend/api/views.py:140-157 | the list has one entry per distinct name and never more entries than lines |
| ShoppingList.SwapRecipes | backend/api/views.py:134-157 | swapping two recipes keeps the list's names and per-name sums |
| ShoppingList.NoLinesNoEntries | backend/api/views.py:133-158 | no recipes, or recipes without ingredient lines, give an empty list |
| ShoppingList.SharedFirstLine | backend/api/views.py:140-157 | of three lines where the first and last share a name, those two merge and the middle one stays second |
| ShoppingList.FlourAndSalt | backend/api/views.py:131-158 | two recipes that both use flour give one summed flour entry followed by salt |
| ShoppingList.SugarWithinOneRecipe | backend/api/views.py:131-158 | two lines of one recipe with the same name merge into one entry |
| Views.GetSerializerClass | backend/api/views.py:78-82 | GET gets the read serializer and every other method the write serializer, because the second test is always true |
| Views.FilterQueryset | backend/api/views.py:84-93 | an anonymous user asking for cart or favorite filtering gets the unfiltered queryset, and every other request is filtered |
| Views.DownloadRecipesAsWritten | backend/api/views.py:132 | as written, the download reads exactly the listed recipes the user favorited, keeping the newest-first order |
| Views.RecipesOf | backend/api/views.py:132 | the listed recipes the user holds a row for in a table, no more than listed, in newest-first order when the listing is |
| Views.CartRecipes | backend/api/views.py:132 | the selection the download is meant to read: the listed recipes in the user's cart, newest first |
| Views.CartIgnoredAsWritten | backend/api/views.py:132 | a user with a cart entry and no favorites downloads nothing as written, although the cart selection holds the recipe |
| Serializers.ValidateId | backend/api/serializers.py:107-116 | an id passes iff it is non-zero and names an ingredient; 0 reports the missing-ingredients error |
| Serializers.ValidateAmount | backend/api/serializers.py:118-123 | as written, an amount passes iff it is non-zero |
| Serializers.NegativeAmountAccepted | backend/api/serializers.py:118-123 | a negative amount passes, and the join row built from it breaks the amount lower bound |
| Serializers.ValidateAmountAtLeastOne | backend/api/serializers.py:118-123 | the corrected check: an amount passes iff it is at least 1, so its row meets the lower bound |
| Serializers.ValidateIngredientItem | backend/api/serializers.py:103-123 | as written, an item passes iff its id is non-zero and names an ingredient and its amount is non-zero; a failing item reports one or two field errors, an id of 0 first |
| Serializers.FirstRepeat | backend/api/serializers.py:166-179 | the first position whose id was already seen exists iff some id repeats, and no repeat occurs before it |
| Serializers.ValidateDuplicate | backend/api/serializers.py:166-179 | the scan passes iff no id occurs twice, and otherwise fails with the id at the first repeat position |
| Serializers.ValidateIngredients | backend/api/serializers.py:219-229 | an empty list is refused first; otherwise the list passes iff its ids are distinct, and it is returned unchanged |
| Serializers.ValidateTags | backend/api/serializers.py:231-238 | an empty tag list is refused first; otherwise it passes iff its ids are distinct, and it is returned unchanged |
| Serializers.ValidatePresence | backend/api/serializers.py:208-217 | a write passes iff both ingredients and tags are given, and a missing ingredient list is reported first |
| Serializers.JoinRows | backend/api/serializers.py:153-163 | the reference definition of the rows a write builds: one per item, in item order, each with the recipe, the item's id and its amount |
| Serializers.IngredientRecipeCreate | backend/api/serializers.py:153-163 | the loop builds one row per item, in item order, each carrying the recipe and the item's id and amount |
| Serializers.JoinRowsUnique | backend/api/serializers.py:153-163 | items with distinct ids give rows with distinct (recipe, ingredient) pairs, each taken from an item |
| Serializers.JoinRowsAsWritten | backend/api/serializers.py:103-163 | as written, items that pass the field checks give rows with a known ingredient and a non-zero amount only: an item with amount -1 passes and its row breaks the lower bound |
| Serializers.JoinRowsValid | backend/api/serializers.py:153-163 | with the corrected amount check, items whose id and amount pass give rows with amount at least 1 and known ingredients |
| Serializers.ToInternalValue | backend/api/serializers.py:141-150 | data that is not a string starting with "data:image" passes unchanged; otherwise it decodes iff the split on ";base64," gives two pieces |
| Serializers.DecodedFileMeaning | backend/api/serializers.py:143-148 | a decoded upload is the header, the marker and the payload, and is named "temp." plus the header's text after its last '/' |
| Serializers.ImageUpload | backend/api/serializers.py:141-150 | "data:image/<ext>;base64,<payload>" gives a file "temp.<ext>" holding the payload |
| Text.Split | backend/api/serializers.py:144-145 | the split of a string on a non-empty separator has at least one piece, and no piece holds the separator |
| Text.JoinSplit | backend/api/serializers.py:144-145 | joining the pieces of a split with the separator gives back the string |
| Text.AfterLastSeparator | backend/api/serializers.py:145 | the last piece of a split holds no separator, and is either the whole string or follows the last separator |
| Text.SplitPair | backend/api/serializers.py:144 | text around one separator, with none of the separator's first character on either side, splits into exactly those two pieces |
| Serializers.GetRecipes | backend/api/serializers.py:78-86 | no limit gives all recipes; a limit n >= 0 gives the first min(n, count) recipes, still newest first; a negative limit and a non-integer are errors |
| Serializers.ValidateSubscribed | backend/api/serializers.py:328-331 | a target passes iff it is not the requesting user |
| Serializers.UniqueTogether | backend/api/serializers.py:321-326 | a pair passes iff it is not stored yet |
| Serializers.ValidateSubscription | backend/api/serializers.py:308-331 | a subscription passes iff the target exists, is not the requester, and the pair is new; self-subscription is reported as such |
| Serializers.ValidateUserRecipe | backend/api/serializers.py:334-370 | a favorite or cart entry passes iff the recipe exists and the pair is new |
| RecipeWrite.RecipeStore.Create | backend/api/serializers.py:240-250 | the recipe is stored under its new key with the given tags, and the join table gains exactly that recipe's rows; the tables stay valid |
| RecipeWrite.RecipeStore.Update | backend/api/serializers.py:252-262 | the update is partial: each of name, text, image and cooking time takes the new value when given and keeps the stored one otherwise; tags are replaced, author, key and date kept; its join rows are replaced; the tables stay valid |
| RecipeWrite.ReplaceRows | backend/api/serializers.py:253-261 | the reference definition of update's join table: every other recipe's rows, plus the rows built from the new items |
| RecipeWrite.ReplaceKeepsOthers | backend/api/serializers.py:253-262 | the replacement leaves every other recipe's rows as they were |
| RecipeWrite.ReplaceExact | backend/api/serializers.py:253-262 | after the replacement the recipe has a row iff an item carries that ingredient and amount |
| RecipeWrite.ReplaceKeepsTableValid | backend/api/serializers.py:253-262 | distinct item ids and amounts of at least 1 keep the join table's uniqueness and lower bound |
| RecipeWrite.ReplaceIdempotent | backend/api/serializers.py:253-262 | repeating an update with the same ingredients leaves the same table |
| RecipeWrite.ClearIsNeeded | backend/api/serializers.py:256-261 | inserting without clearing first breaks (recipe, ingredient) uniqueness when an ingredient is kept with a new amount |
| Mixins.AddStatus | backend/api/mixins.py:28-39 | adding answers 201 iff the recipe exists and the pair is new, and 400 otherwise |
| Mixins.RemoveStatus | backend/api/mixins.py:44-50 | removing answers 404 iff the recipe is unknown, 400 iff it exists and the pair is not stored, and 204 iff it exists and the pair is stored |
| Mixins.SubscribeStatus | backend/api/mixins.py:57-70 | subscribing answers only 201, 400 or 404: 404 iff the user is unknown, 201 iff the target exists, is not the requester and the pair is new; self-subscription and an already stored pair answer 400 |
| Mixins.UnsubscribeStatus | backend/api/mixins.py:75-81 | unsubscribing answers 404 iff the user is unknown, 400 iff the user exists and the pair is not stored, and 204 iff the pair is stored |
| Mixins.After | backend/api/mixins.py:32-81 | after a request the pair is stored iff the answer was 201, or it was stored and the answer was not 204; every other pair is untouched |
| Mixins.AddThenRemove | backend/api/mixins.py:28-50 | a successful add followed by a remove of the same pair answers 204 and restores the table |
| Mixins.RepeatIsRefused | backend/api/mixins.py:28-50 | repeating an add, or a remove, of an existing recipe answers 400 |
| Mixins.MissingPairIsRefused | backend/api/mixins.py:44-81 | removing a pair that is not stored, or subscribing to a pair that is, answers 400 and leaves the table unchanged |
| Mixins.SubscribeKeepsNoSelf | backend/api/mixins.py:57-81 | no request ever stores a self-subscription |
| Mixins.CreateDestroyAddViewSet.Create | backend/api/mixins.py:28-42 | the URL's recipe key replaces the client's; the pair is inserted on 201 and the table is unchanged on 400 |
| Mixins.CreateDestroyAddViewSet.Delete | backend/api/mixins.py:44-50 | the answer is 404 for an unknown recipe, 400 when the pair is not stored and 204 otherwise; exactly the pair is removed on 204, and nothing changes on 404 or 400 |
| Mixins.CreateDestroySubscribeViewSet.Create | backend/api/mixins.py:57-73 | 404 comes before any change; the URL's user key replaces the client's; the pair is inserted only on 201; no self-subscription is stored |
| Mixins.CreateDestroySubscribeViewSet.Delete | backend/api/mixins.py:75-81 | the answer is 404 for an unknown user, 400 when not subscribed and 204 otherwise; exactly the pair is removed on 204, and nothing changes on 404 or 400 |
| Models.DeleteRecipe | backend/recipes/models.py:100-104 | deleting a recipe removes exactly its key from the recipe table |
| Models.DeleteRecipeCascades | backend/recipes/models.py:100-138 | the cascade drops exactly the deleted recipe's join rows, favorites and cart entries, and keeps the store valid |
| Models.CascadeIsNeeded | backend/recipes/models.py:101-104 | removing a recipe with join rows but without the cascade breaks referential integrity |
| Models.IngredientNamesMayRepeat | backend/recipes/models.py:36-41 | a valid store may hold two ingredients with the same name |
| Models.CharField | backend/recipes/models.py:12-41 | a character field is non-blank and within its `max_length` |
| Models.ValidTag | backend/recipes/models.py:11-26 | a tag's name, colour and slug are within 200, 7 and 200 characters, and the slug uses slug characters only |
| Models.ValidIngredient | backend/recipes/models.py:36-41 | an ingredient's name and unit are within 200 characters |
| Models.ValidRecipe | backend/recipes/models.py:51-72 | a recipe's name is within 200 characters, its text and image are given, and its cooking time is at least 1 |
| Models.ValidIngredientRecipe | backend/recipes/models.py:108-112 | a join row's amount is at least 1 |
| Models.UniqueTags | backend/recipes/models.py:12-26 | no two tags share a name, a colour or a slug |
| Models.UniqueRecipeIngredient | backend/recipes/models.py:114-116 | no two join rows share a (recipe, ingredient) pair |
| Models.Valid | backend/recipes/models.py:11-151 | every table meets its declared field rules, keys are primary keys, and every foreign key names a stored row |
| Models.InsertByDate | backend/recipes/models.py:94 | inserting a recipe into a listing by publication date lengthens it by one (order and contents are in the next two lemmas) |
| Models.Ordered | backend/recipes/models.py:94 | the ordered listing has as many recipes as its input (order and contents are in `Models.OrderedIsNewestFirst`) |
| Models.InsertByDateSorted | backend/recipes/models.py:94 | inserting into a newest-first listing keeps it newest first |
| Models.InsertByDatePermutes | backend/recipes/models.py:94 | inserting adds exactly that recipe to the listing |
| Models.OrderedIsNewestFirst | backend/recipes/models.py:94 | the default ordering is a permutation of the recipes in which publication dates never increase |

## Left out

- HTTP, the ORM, `@atomic` transactions, authentication, permissions, djoser user views and pagination are left out. Table lookups and `exists()` checks are set or map membership.
- The download's database reads are abstracted. `Views.DownloadShoppingCart` takes each recipe's ingredient lines (name, amount, unit) as a parameter; which recipes are read is modelled separately by `Views.DownloadRecipesAsWritten`.
- `Views.DownloadShoppingCart`: the order in which the ORM returns a recipe's ingredients is whatever order the parameter has.
- `DownloadShoppingCartMixin` in `backend/api/utils.py` is not part of this model: no view set includes it, so it serves no request. It aggregates in the database with GROUP BY. Its output keys are Russian labels, while the CSV renderer's header at `backend/api/renderes.py:5` expects `name`, `amount` and `measurement_unit`, so its rows would not fill those columns.
- CSV rendering (`backend/api/renderes.py`), the declarative filters (`backend/api/filters.py`), the data-loading command, the URL router and the admin configuration are left out.
- Base64 decoding, `ContentFile` and image storage are left out. `Serializers.ToInternalValue` keeps the payload text that would be decoded.
- `Serializers.ToInternalValue`: a split into anything but two pieces is one unpacking error.
- `Serializers.GetRecipes`: a non-integer `recipes_limit` (an uncaught `ValueError`) and a negative one (refused by the queryset slice) are both error results.
- Deleting a user, with its cascades to recipes, favorites, cart entries and subscriptions, is not modelled. The recipe cascade is.
- `Models.OrderedIsNewestFirst`: ties in `pub_date` are in no particular order, as in the database.
- The immutability of a request's `data` (a `QueryDict` from a form request refuses `update`) is not modelled. The request data is a plain map.
- The response bodies of the endpoints (serialized recipes and users) are left out. Only status codes and the table changes are modelled.
- `RecipeWrite.RecipeStore.Create` and `RecipeWrite.RecipeStore.Update` take validated data. Serializer validation runs before them, and their preconditions are what it guarantees with the corrected amount check: distinct ingredient ids and amounts of at least 1. As written, a negative amount would pass (`Serializers.JoinRowsAsWritten`).
- `RecipeWrite.RecipeStore.Create` and `RecipeWrite.RecipeStore.Update`: integers are unbounded, so an ingredient amount too large for the database's integer column is stored. In the program such an amount passes the serializer (its `IntegerField` sets no `max_value`), fails at insert, and the atomic block rolls the write back.
- `Serializers.ValidateUserRecipe`: the two serializers, for favorites and for cart entries, are one function, because they differ only in their table.

## Findings

| source | as written | input that shows it | evidently intended | confidence | as-written member | corrected member |
|---|---|---|---|---|---|---|
| backend/api/views.py:132 | the shopping-list download reads the user's favorite recipes | a user with one recipe in the cart and no favorites gets an empty list | read the recipes in the user's shopping cart, as the unused mixin in `backend/api/utils.py:19-21` does | high, not executed | Views.CartIgnoredAsWritten | Views.CartRecipes |
| backend/api/serializers.py:118-123 | the amount check refuses only 0 | amount -5 passes, and bulk insertion skips the model validators, so a row with amount -5 is stored despite the lower bound at `backend/recipes/models.py:109-112` | refuse amounts below 1, so that every stored join row meets the bound (`Serializers.JoinRowsValid`) | medium, not executed | Serializers.NegativeAmountAccepted | Serializers.ValidateAmountAtLeastOne |
