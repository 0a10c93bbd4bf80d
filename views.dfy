/** The recipe view set: which serializer a request gets, when query filters
    are skipped, which recipes the shopping-list download reads, and the
    download's consolidation loop. */
module Views {
  import opened ShoppingList
  import opened Models

  datatype SerializerClass = RecipeGetSerializer | RecipePostSerializer | NoSerializer

  /** Python truthiness of a string: only the empty string is false. */
  predicate Truthy(s: string) {
    s != ""
  }

  /** get_serializer_class. The second test reads `method == 'POST' or 'PATCH'`,
      whose right operand is a non-empty string, so it holds for every method. */
  function GetSerializerClass(requestMethod: string): (c: SerializerClass)
    ensures c == RecipeGetSerializer <==> requestMethod == "GET"
    ensures c == RecipePostSerializer <==> requestMethod != "GET"
  {
    if requestMethod == "GET" then RecipeGetSerializer
    else if requestMethod == "POST" || Truthy("PATCH") then RecipePostSerializer
    else NoSerializer
  }

  datatype QuerysetChoice = AllRecipes | FilteredRecipes

  /** filter_queryset: an anonymous user asking for cart or favorite filtering
      gets the whole queryset; every other request goes through the filters. */
  function FilterQueryset(isAnonymous: bool, queryParams: set<string>): (q: QuerysetChoice)
    ensures q == AllRecipes <==>
      isAnonymous && ("is_in_shopping_cart" in queryParams || "is_favorited" in queryParams)
    ensures !isAnonymous ==> q == FilteredRecipes
  {
    if isAnonymous && ("is_in_shopping_cart" in queryParams || "is_favorited" in queryParams) then
      AllRecipes
    else
      FilteredRecipes
  }

  // ---------------------------------------------------------------------
  // Which recipes the download reads

  /** The recipes of `listing`, in listing order, that `user` holds a row for
      in `relation`. The listing is the recipe queryset, in its newest-first
      default ordering, and the selection keeps that ordering. */
  function RecipesOf(listing: seq<Recipe>, relation: set<UserRecipe>, user: int): (r: seq<Recipe>)
    ensures forall x :: x in r <==> x in listing && UserRecipe(user, x.id) in relation
    ensures |r| <= |listing|
    ensures NewestFirst(listing) ==> NewestFirst(r)
  {
    if listing == [] then []
    else
      assert forall x :: x in listing <==> x == listing[0] || x in listing[1..];
      var rest := RecipesOf(listing[1..], relation, user);
      if UserRecipe(user, listing[0].id) in relation then
        assert NewestFirst(listing) ==> NewestFirst([listing[0]] + rest) by {
          if NewestFirst(listing) {
            if rest != [] {
              var k :| 1 <= k < |listing| && listing[k] == rest[0];
            }
            ConsNewestFirst(listing[0], rest);
          }
        }
        [listing[0]] + rest
      else rest
  }

  /** As written, the download reads the user's favorites (`favorite_recipes`):
      the listed recipes the user favorited, newest first. */
  function DownloadRecipesAsWritten(db: Store, listing: seq<Recipe>, user: int): (r: seq<Recipe>)
    ensures forall x :: x in r <==> x in listing && UserRecipe(user, x.id) in db.favorites
    ensures NewestFirst(listing) ==> NewestFirst(r)
  {
    RecipesOf(listing, db.favorites, user)
  }

  /** What the endpoint is for: the recipes in the user's shopping cart. */
  function CartRecipes(db: Store, listing: seq<Recipe>, user: int): (r: seq<Recipe>)
    ensures forall x :: x in r <==> x in listing && UserRecipe(user, x.id) in db.shoppingCart
    ensures NewestFirst(listing) ==> NewestFirst(r)
  {
    RecipesOf(listing, db.shoppingCart, user)
  }

  /** A user whose cart holds a recipe they never favorited downloads an empty
      list as written, while the cart selection holds that recipe. */
  lemma CartIgnoredAsWritten()
    ensures var r := Recipe(7, 1, "soup", "boil", "soup.png", 20, 0, {});
      var db := Store({1}, map[], map[], map[7 := r], {}, {}, {UserRecipe(1, 7)}, {});
      && Valid(db)
      && DownloadRecipesAsWritten(db, [r], 1) == []
      && CartRecipes(db, [r], 1) == [r]
  {
    var r := Recipe(7, 1, "soup", "boil", "soup.png", 20, 0, {});
    var db := Store({1}, map[], map[], map[7 := r], {}, {}, {UserRecipe(1, 7)}, {});
    assert [r][1..] == [];
    assert CartRecipes(db, [r], 1) == [r] + RecipesOf([], db.shoppingCart, 1);
  }

  // ---------------------------------------------------------------------
  // The consolidation loop

  /** The body of the download's inner loop, for one ingredient line: append
      the line to an empty list; otherwise scan every entry (there is no
      `break`), add the amount to each entry of the same name, and append the
      line if none matched. With distinct names this is exactly one step of
      the consolidation. */
  method MergeLine(cart: seq<Line>, line: Line) returns (merged: seq<Line>)
    ensures merged == if line.name in NamesOf(cart) then AddTo(cart, line) else cart + [line]
  {
    merged := cart;
    if |merged| == 0 {
      assert NamesOf(cart) == {};
      merged := merged + [line];
    } else {
      var result := false;
      for i := 0 to |merged|
        invariant |merged| == |cart|
        invariant forall k :: 0 <= k < i ==> merged[k] == AddTo(cart, line)[k]
        invariant forall k :: i <= k < |merged| ==> merged[k] == cart[k]
        invariant result <==> exists k :: 0 <= k < i && cart[k].name == line.name
      {
        if line.name == merged[i].name {
          merged := merged[i := merged[i].(amount := merged[i].amount + line.amount)];
          result := true;
        }
      }
      if !result {
        merged := merged + [line];
      }
    }
  }

  /** The download's inner loop over one recipe's ingredient lines: each line
      is merged in turn into the list built from the lines `done` before it. */
  method MergeRecipe(cart: seq<Line>, ghost done: seq<Line>, ingredients: seq<Line>) returns (merged: seq<Line>)
    requires cart == Consolidated(done)
    ensures merged == Consolidated(done + ingredients)
  {
    merged := cart;
    ghost var seen := done;
    for j := 0 to |ingredients|
      invariant seen == done + ingredients[..j]
      invariant merged == Consolidated(seen)
    {
      var line := ingredients[j];
      MergeStep(seen, line);
      merged := MergeLine(merged, line);
      seen := seen + [line];
      assert merged == Consolidated(seen);
      assert ingredients[..j + 1] == ingredients[..j] + [line];
    }
    assert ingredients[..|ingredients|] == ingredients;
  }

  /** download_shopping_cart. `recipes` holds the ingredient lines of each
      recipe read, in order. The result is the consolidated list: distinct
      names in first-seen order, per-name sums, first-seen units. */
  method DownloadShoppingCart(recipes: seq<seq<Line>>) returns (cart: seq<Line>)
    ensures cart == Consolidated(Flatten(recipes))
    ensures DistinctNames(cart) && NamesOf(cart) == NamesOf(Flatten(recipes))
    ensures Total(cart) == Total(Flatten(recipes))
  {
    cart := [];
    for r := 0 to |recipes|
      invariant cart == Consolidated(Flatten(recipes[..r]))
    {
      cart := MergeRecipe(cart, Flatten(recipes[..r]), recipes[r]);
      FlattenStep(recipes, r);
    }
    assert recipes[..|recipes|] == recipes;
    NamesDistinctAndComplete(Flatten(recipes));
    ConservesTotal(Flatten(recipes));
  }
}
