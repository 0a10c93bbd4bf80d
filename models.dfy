/** The records of the recipe store (tags, ingredients, recipes, the
    recipe/ingredient join rows with their amounts, favorites, cart entries
    and subscriptions) and the constraints their declarations put on them. */
module Models {

  /** max_length of the name-like character fields. */
  const FIELD_RESTRICTION: nat := 200
  /** max_length of a tag's colour code. */
  const COLOR_FIELD_RESTRICTION: nat := 7

  datatype Tag = Tag(id: int, name: string, color: string, slug: string)

  datatype Ingredient = Ingredient(id: int, name: string, measurementUnit: string)

  /** A recipe; `tags` is its many-to-many link to Tag, `pubDate` the
      timestamp set when it is created. */
  datatype Recipe = Recipe(
    id: int, author: int, name: string, text: string, image: string,
    cookingTime: int, pubDate: int, tags: set<int>)

  /** A row of the recipe/ingredient join table, carrying the amount. */
  datatype IngredientRecipe = IngredientRecipe(recipe: int, ingredient: int, amount: int)

  /** A row of AddedToFavorite or of ShoppingСart: a user and a recipe. */
  datatype UserRecipe = UserRecipe(user: int, recipe: int)

  /** A row of Subscribe: `user` follows `subscribed`. */
  datatype Subscribe = Subscribe(user: int, subscribed: int)

  /** A character field that may not be blank, of at most `maxLength` characters. */
  predicate CharField(s: string, maxLength: nat) {
    0 < |s| <= maxLength
  }

  predicate SlugChar(c: char) {
    'a' <= c <= 'z' || 'A' <= c <= 'Z' || '0' <= c <= '9' || c == '-' || c == '_'
  }

  /** A slug field: a character field of letters, digits, hyphens and underscores. */
  predicate SlugField(s: string, maxLength: nat) {
    CharField(s, maxLength) && forall i :: 0 <= i < |s| ==> SlugChar(s[i])
  }

  predicate ValidTag(t: Tag) {
    CharField(t.name, FIELD_RESTRICTION) && CharField(t.color, COLOR_FIELD_RESTRICTION)
    && SlugField(t.slug, FIELD_RESTRICTION)
  }

  /** An ingredient's name and unit are bounded; nothing makes the name unique. */
  predicate ValidIngredient(i: Ingredient) {
    CharField(i.name, FIELD_RESTRICTION) && CharField(i.measurementUnit, FIELD_RESTRICTION)
  }

  predicate ValidRecipe(r: Recipe) {
    CharField(r.name, FIELD_RESTRICTION) && |r.text| > 0 && |r.image| > 0 && r.cookingTime >= 1
  }

  predicate ValidIngredientRecipe(row: IngredientRecipe) {
    row.amount >= 1
  }

  /** Tag name, colour and slug are each unique across the tag table. */
  predicate UniqueTags(tags: map<int, Tag>) {
    forall a, b :: a in tags && b in tags && a != b ==>
      tags[a].name != tags[b].name && tags[a].color != tags[b].color && tags[a].slug != tags[b].slug
  }

  /** At most one join row per (recipe, ingredient) pair. */
  predicate UniqueRecipeIngredient(rows: set<IngredientRecipe>) {
    forall x, y :: x in rows && y in rows && x.recipe == y.recipe && x.ingredient == y.ingredient ==> x == y
  }

  /** The whole store: every table, keyed by primary key where it has one. */
  datatype Store = Store(
    users: set<int>,
    tags: map<int, Tag>,
    ingredients: map<int, Ingredient>,
    recipes: map<int, Recipe>,
    ingredientRecipes: set<IngredientRecipe>,
    favorites: set<UserRecipe>,
    shoppingCart: set<UserRecipe>,
    subscriptions: set<Subscribe>)

  /** Every rule the declarations state, plus referential integrity of every foreign key. */
  predicate Valid(db: Store) {
    && (forall t :: t in db.tags ==> db.tags[t].id == t && ValidTag(db.tags[t]))
    && UniqueTags(db.tags)
    && (forall i :: i in db.ingredients ==> db.ingredients[i].id == i && ValidIngredient(db.ingredients[i]))
    && (forall r :: r in db.recipes ==>
          && db.recipes[r].id == r && ValidRecipe(db.recipes[r])
          && db.recipes[r].author in db.users && db.recipes[r].tags <= db.tags.Keys)
    && (forall row :: row in db.ingredientRecipes ==>
          ValidIngredientRecipe(row) && row.recipe in db.recipes && row.ingredient in db.ingredients)
    && UniqueRecipeIngredient(db.ingredientRecipes)
    && (forall f :: f in db.favorites ==> f.user in db.users && f.recipe in db.recipes)
    && (forall f :: f in db.shoppingCart ==> f.user in db.users && f.recipe in db.recipes)
    && (forall s :: s in db.subscriptions ==> s.user in db.users && s.subscribed in db.users)
  }

  /** Deleting a recipe, with the cascade its foreign keys declare: its join
      rows, favorites and cart entries go with it. */
  function DeleteRecipe(db: Store, id: int): (r: Store)
    ensures r.recipes.Keys == db.recipes.Keys - {id}
    ensures r.recipes == db.recipes - {id}
  {
    var rows := set row | row in db.ingredientRecipes && row.recipe != id;
    var favorites := set f | f in db.favorites && f.recipe != id;
    var cart := set f | f in db.shoppingCart && f.recipe != id;
    db.(recipes := db.recipes - {id}, ingredientRecipes := rows, favorites := favorites, shoppingCart := cart)
  }

  /** After the cascade no row refers to the deleted recipe, every row of
      another recipe is still there, and the store is still valid. */
  lemma DeleteRecipeCascades(db: Store, id: int)
    requires Valid(db)
    ensures var r := DeleteRecipe(db, id);
      && Valid(r)
      && (forall row :: row in r.ingredientRecipes <==> row in db.ingredientRecipes && row.recipe != id)
      && (forall f :: f in r.favorites <==> f in db.favorites && f.recipe != id)
      && (forall f :: f in r.shoppingCart <==> f in db.shoppingCart && f.recipe != id)
      && r.users == db.users && r.tags == db.tags && r.ingredients == db.ingredients
      && r.subscriptions == db.subscriptions
  {
  }

  /** Removing the recipe alone, without the cascade, breaks referential
      integrity as soon as one join row names it. */
  lemma CascadeIsNeeded(db: Store, row: IngredientRecipe)
    requires Valid(db) && row in db.ingredientRecipes
    ensures !Valid(db.(recipes := db.recipes - {row.recipe}))
  {
    var bare := db.(recipes := db.recipes - {row.recipe});
    assert row in bare.ingredientRecipes && row.recipe !in bare.recipes;
  }

  /** Ingredient names are not unique: a valid store may hold two ingredients
      of the same name (with different units). */
  lemma IngredientNamesMayRepeat()
    ensures exists db: Store ::
      (Valid(db) && 1 in db.ingredients && 2 in db.ingredients
       && db.ingredients[1].name == db.ingredients[2].name)
  {
    var db := Store({}, map[], map[1 := Ingredient(1, "salt", "g"), 2 := Ingredient(2, "salt", "pinch")],
                    map[], {}, {}, {}, {});
    assert Valid(db);
  }

  // ---------------------------------------------------------------------
  // Default ordering of recipes: newest publication date first

  predicate NewestFirst(rs: seq<Recipe>) {
    forall i, j :: 0 <= i < j < |rs| ==> rs[i].pubDate >= rs[j].pubDate
  }

  /** Putting a recipe in front of a listing at least as old keeps it ordered. */
  lemma ConsNewestFirst(y: Recipe, rs: seq<Recipe>)
    requires NewestFirst(rs)
    requires rs != [] ==> y.pubDate >= rs[0].pubDate
    ensures NewestFirst([y] + rs)
  {
    var r := [y] + rs;
    forall i, j | 0 <= i < j < |r| ensures r[i].pubDate >= r[j].pubDate {
      if i == 0 && j > 1 {
        assert rs[0].pubDate >= rs[j - 1].pubDate;
      }
    }
  }

  /** Insert `x` into a listing in front of the first recipe it is at least as new as. */
  function InsertByDate(x: Recipe, rs: seq<Recipe>): (r: seq<Recipe>)
    ensures |r| == |rs| + 1
  {
    if rs == [] then [x]
    else if x.pubDate >= rs[0].pubDate then [x] + rs
    else [rs[0]] + InsertByDate(x, rs[1..])
  }

  /** Inserting into a newest-first listing keeps it newest first; the new
      head is `x` or the old head. */
  lemma {:induction false} InsertByDateSorted(x: Recipe, rs: seq<Recipe>)
    requires NewestFirst(rs)
    ensures NewestFirst(InsertByDate(x, rs))
    ensures InsertByDate(x, rs)[0] == x || (rs != [] && InsertByDate(x, rs)[0] == rs[0])
  {
    if rs != [] {
      if x.pubDate >= rs[0].pubDate {
        ConsNewestFirst(x, rs);
      } else {
        var rest := rs[1..];
        assert forall i :: 0 <= i < |rest| ==> rest[i] == rs[i + 1];
        InsertByDateSorted(x, rest);
        var tail := InsertByDate(x, rest);
        assert rest != [] ==> rest[0] == rs[1];
        ConsNewestFirst(rs[0], tail);
      }
    }
  }

  /** Inserting adds exactly `x` to the listing. */
  lemma {:induction false} InsertByDatePermutes(x: Recipe, rs: seq<Recipe>)
    ensures multiset(InsertByDate(x, rs)) == multiset(rs) + multiset{x}
  {
    if rs != [] && x.pubDate < rs[0].pubDate {
      InsertByDatePermutes(x, rs[1..]);
      assert rs == [rs[0]] + rs[1..];
    }
  }

  /** A listing of recipes in the model's declared ordering, built by insertion. */
  function Ordered(rs: seq<Recipe>): (r: seq<Recipe>)
    ensures |r| == |rs|
  {
    if rs == [] then [] else InsertByDate(rs[0], Ordered(rs[1..]))
  }

  /** The default ordering is a permutation of its input in which publication
      dates never increase. */
  lemma {:induction false} OrderedIsNewestFirst(rs: seq<Recipe>)
    ensures NewestFirst(Ordered(rs))
    ensures multiset(Ordered(rs)) == multiset(rs)
  {
    if rs != [] {
      OrderedIsNewestFirst(rs[1..]);
      InsertByDateSorted(rs[0], Ordered(rs[1..]));
      InsertByDatePermutes(rs[0], Ordered(rs[1..]));
      assert rs == [rs[0]] + rs[1..];
    }
  }
}
