/** The recipe write path: creating a recipe with its join rows and tags, and
    updating one by clearing its tags and join rows and inserting the new
    ones. The recipe table and the join table are the state a write changes. */
module RecipeWrite {
  import opened Common
  import opened Models
  import opened Serializers

  /** The join rows of a list of ingredient items, as a table. */
  function RowSet(ingredients: seq<IngredientInput>, recipe: int): set<IngredientRecipe> {
    set row | row in JoinRows(ingredients, recipe)
  }

  /** The join table after a recipe's rows are cleared and rebuilt from `ingredients`. */
  function ReplaceRows(rows: set<IngredientRecipe>, recipe: int, ingredients: seq<IngredientInput>): set<IngredientRecipe> {
    (set row | row in rows && row.recipe != recipe) + RowSet(ingredients, recipe)
  }

  /** The rows of every other recipe are untouched by a replacement. */
  lemma ReplaceKeepsOthers(rows: set<IngredientRecipe>, recipe: int, ingredients: seq<IngredientInput>)
    ensures forall row: IngredientRecipe :: row.recipe != recipe ==> (row in ReplaceRows(rows, recipe, ingredients) <==> row in rows)
  {
  }

  /** After a replacement the recipe has exactly one row per item: a row for
      it is present if and only if an item carries that ingredient and amount. */
  lemma ReplaceExact(rows: set<IngredientRecipe>, recipe: int, ingredients: seq<IngredientInput>)
    ensures forall row: IngredientRecipe :: row.recipe == recipe ==>
      (row in ReplaceRows(rows, recipe, ingredients) <==> IngredientInput(row.ingredient, row.amount) in ingredients)
  {
    var rs := JoinRows(ingredients, recipe);
    forall row: IngredientRecipe | row.recipe == recipe && IngredientInput(row.ingredient, row.amount) in ingredients
      ensures row in rs
    {
      var i :| 0 <= i < |ingredients| && ingredients[i] == IngredientInput(row.ingredient, row.amount);
      assert rs[i] == row;
    }
  }

  /** A replacement keeps the table free of repeated (recipe, ingredient)
      pairs when the items have distinct ids, and keeps every amount at
      least 1 when every item's amount is. */
  lemma ReplaceKeepsTableValid(rows: set<IngredientRecipe>, recipe: int, ingredients: seq<IngredientInput>)
    requires UniqueRecipeIngredient(rows) && (forall row :: row in rows ==> ValidIngredientRecipe(row))
    requires !HasDuplicate(IngredientIds(ingredients))
    requires forall i :: 0 <= i < |ingredients| ==> ingredients[i].amount >= 1
    ensures UniqueRecipeIngredient(ReplaceRows(rows, recipe, ingredients))
    ensures forall row :: row in ReplaceRows(rows, recipe, ingredients) ==> ValidIngredientRecipe(row)
  {
    JoinRowsUnique(ingredients, recipe);
  }

  /** Updating twice with the same ingredients leaves the same table as once. */
  lemma ReplaceIdempotent(rows: set<IngredientRecipe>, recipe: int, ingredients: seq<IngredientInput>)
    ensures ReplaceRows(ReplaceRows(rows, recipe, ingredients), recipe, ingredients)
         == ReplaceRows(rows, recipe, ingredients)
  {
    var once := ReplaceRows(rows, recipe, ingredients);
    assert forall row :: row in RowSet(ingredients, recipe) ==> row.recipe == recipe;
    assert (set row | row in once && row.recipe != recipe) == (set row | row in rows && row.recipe != recipe);
  }

  /** Inserting the new rows without first clearing the old ones breaks the
      uniqueness of (recipe, ingredient) as soon as an ingredient is kept with
      a new amount. */
  lemma ClearIsNeeded(rows: set<IngredientRecipe>, recipe: int, ingredients: seq<IngredientInput>, i: nat, oldAmount: int)
    requires i < |ingredients| && oldAmount != ingredients[i].amount
    requires IngredientRecipe(recipe, ingredients[i].id, oldAmount) in rows
    ensures !UniqueRecipeIngredient(rows + RowSet(ingredients, recipe))
  {
    var added := JoinRows(ingredients, recipe)[i];
    assert added in RowSet(ingredients, recipe);
    assert IngredientRecipe(recipe, ingredients[i].id, oldAmount) != added;
  }

  class RecipeStore {
    var recipes: map<int, Recipe>
    var rows: set<IngredientRecipe>

    /** Every join row names a stored recipe and has an amount of at least 1,
        no (recipe, ingredient) pair repeats, and recipes are keyed by id. */
    predicate Valid()
      reads this
    {
      && (forall r :: r in recipes ==> recipes[r].id == r)
      && (forall row :: row in rows ==> row.recipe in recipes && ValidIngredientRecipe(row))
      && UniqueRecipeIngredient(rows)
    }

    constructor ()
      ensures Valid() && recipes == map[] && rows == {}
    {
      recipes := map[];
      rows := {};
    }

    /** RecipePostSerializer.create, on validated data: insert the recipe under
        the fresh key `id`, bulk-insert its join rows, then set its tags. */
    method Create(id: int, author: int, name: string, text: string, image: string,
                  cookingTime: int, pubDate: int, ingredients: seq<IngredientInput>, tags: seq<int>)
      returns (recipe: Recipe)
      requires Valid() && id !in recipes
      requires !HasDuplicate(IngredientIds(ingredients))
      requires forall i :: 0 <= i < |ingredients| ==> ingredients[i].amount >= 1
      modifies this
      ensures Valid()
      ensures recipe == Recipe(id, author, name, text, image, cookingTime, pubDate, set t | t in tags)
      ensures recipes == old(recipes)[id := recipe]
      ensures rows == old(rows) + RowSet(ingredients, id)
    {
      recipes := recipes[id := Recipe(id, author, name, text, image, cookingTime, pubDate, {})];
      var relationship := IngredientRecipeCreate(ingredients, id);
      rows := rows + set row | row in relationship;
      var tagSet := set t | t in tags;
      recipe := recipes[id].(tags := tagSet);
      recipes := recipes[id := recipe];
      assert ReplaceRows(old(rows), id, ingredients) == rows;
      ReplaceKeepsTableValid(old(rows), id, ingredients);
    }

    /** RecipePostSerializer.update, on validated data: clear the recipe's tags
        and join rows, bulk-insert the new rows, then write the fields and tags.
        The update is always partial, so a field the request leaves out (None)
        keeps its stored value. Author, key and publication date stay. */
    method Update(id: int, name: Option<string>, text: Option<string>, image: Option<string>,
                  cookingTime: Option<int>, ingredients: seq<IngredientInput>, tags: seq<int>)
      returns (recipe: Recipe)
      requires Valid() && id in recipes
      requires !HasDuplicate(IngredientIds(ingredients))
      requires forall i :: 0 <= i < |ingredients| ==> ingredients[i].amount >= 1
      modifies this
      ensures Valid()
      ensures var before := old(recipes)[id];
        && recipe.id == id && recipe.author == before.author && recipe.pubDate == before.pubDate
        && recipe.name == (if name.Some? then name.value else before.name)
        && recipe.text == (if text.Some? then text.value else before.text)
        && recipe.image == (if image.Some? then image.value else before.image)
        && recipe.cookingTime == (if cookingTime.Some? then cookingTime.value else before.cookingTime)
        && recipe.tags == set t | t in tags
      ensures recipes == old(recipes)[id := recipe]
      ensures rows == ReplaceRows(old(rows), id, ingredients)
    {
      recipes := recipes[id := recipes[id].(tags := {})];
      rows := set row | row in rows && row.recipe != id;
      var relationship := IngredientRecipeCreate(ingredients, id);
      rows := rows + set row | row in relationship;
      recipe := recipes[id];
      if name.Some? {
        recipe := recipe.(name := name.value);
      }
      if text.Some? {
        recipe := recipe.(text := text.value);
      }
      if image.Some? {
        recipe := recipe.(image := image.value);
      }
      if cookingTime.Some? {
        recipe := recipe.(cookingTime := cookingTime.value);
      }
      var tagSet := set t | t in tags;
      recipe := recipe.(tags := tagSet);
      recipes := recipes[id := recipe];
      ReplaceKeepsTableValid(old(rows), id, ingredients);
    }
  }
}
