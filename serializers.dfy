/** The serializers' write-side rules: the ingredient and tag checks of a
    recipe write, the duplicate-id scan, the join rows a write produces, the
    data-URI header of an uploaded image, the `recipes_limit` prefix, and the
    rules for subscriptions, favorites and cart entries. */
module Serializers {
  import opened Common
  import opened Text
  import opened Models

  datatype ValidationError =
    | AddIngredients          // an ingredient id of 0, or no `ingredients` key at all
    | UnknownIngredient       // an ingredient id with no Ingredient row
    | MissingAmount           // an amount of 0
    | AmountBelowOne          // an amount under 1 (the corrected amount check)
    | NoIngredientGiven       // an empty ingredient list
    | AddTags                 // no `tags` key at all
    | NoTagGiven              // an empty tag list
    | Repeated(id: int)       // the same id twice in one list
    | SelfSubscription        // subscribing to oneself
    | DoesNotExist(pk: int)   // a primary key with no row behind it
    | NotUnique               // the (user, target) pair is already stored

  /** One item of a recipe write's `ingredients` list. */
  datatype IngredientInput = IngredientInput(id: int, amount: int)

  // ---------------------------------------------------------------------
  // Field checks of one ingredient item

  /** validate_id: 0 is refused, then the id must name an Ingredient row. */
  function ValidateId(value: int, ingredientIds: set<int>): (r: Result<int, ValidationError>)
    ensures r.Ok? <==> value != 0 && value in ingredientIds
    ensures r.Ok? ==> r.value == value
    ensures value == 0 ==> r == Err(AddIngredients)
  {
    if value == 0 then Err(AddIngredients)
    else if value !in ingredientIds then Err(UnknownIngredient)
    else Ok(value)
  }

  /** validate_amount as written: only a falsy amount, 0, is refused. */
  function ValidateAmount(value: int): (r: Result<int, ValidationError>)
    ensures r.Ok? <==> value != 0
    ensures r.Ok? ==> r.value == value
  {
    if value == 0 then Err(MissingAmount) else Ok(value)
  }

  /** A negative amount passes validate_amount, and the join row built from it
      breaks the join table's lower bound of 1. */
  lemma NegativeAmountAccepted(recipe: int, ingredient: int)
    ensures ValidateAmount(-5).Ok?
    ensures !ValidIngredientRecipe(IngredientRecipe(recipe, ingredient, ValidateAmount(-5).value))
  {
  }

  /** The amount check the join table's lower bound calls for: under 1 is refused. */
  function ValidateAmountAtLeastOne(value: int): (r: Result<int, ValidationError>)
    ensures r.Ok? <==> value >= 1
    ensures r.Ok? ==> r.value == value && ValidIngredientRecipe(IngredientRecipe(0, 0, r.value))
  {
    if value == 0 then Err(MissingAmount)
    else if value < 1 then Err(AmountBelowOne)
    else Ok(value)
  }

  /** The field checks of one ingredient item, as written: every failing
      field reports, and the amount passes whenever it is non-zero. */
  function ValidateIngredientItem(item: IngredientInput, ingredientIds: set<int>): (r: Result<IngredientInput, seq<ValidationError>>)
    ensures r.Ok? <==> item.id != 0 && item.id in ingredientIds && item.amount != 0
    ensures r.Ok? ==> r.value == item
    ensures r.Err? ==> 1 <= |r.error| <= 2
    ensures item.id == 0 ==> r.Err? && r.error[0] == AddIngredients
  {
    var idCheck, amountCheck := ValidateId(item.id, ingredientIds), ValidateAmount(item.amount);
    var errors := (if idCheck.Err? then [idCheck.error] else []) + (if amountCheck.Err? then [amountCheck.error] else []);
    if errors == [] then Ok(item) else Err(errors)
  }

  // ---------------------------------------------------------------------
  // The duplicate-id scan

  /** What the scan iterates over: tag objects (read through `.id`) or
      ingredient items (read through `['id']`). */
  datatype WriteValue = TagObject(tagId: int) | IngredientItem(item: IngredientInput)

  function IdOf(v: WriteValue): int {
    match v
    case TagObject(t) => t
    case IngredientItem(x) => x.id
  }

  function Ids(values: seq<WriteValue>): (ids: seq<int>)
    ensures |ids| == |values|
    ensures forall i :: 0 <= i < |values| ==> ids[i] == IdOf(values[i])
  {
    seq(|values|, i requires 0 <= i < |values| => IdOf(values[i]))
  }

  predicate HasDuplicate(ids: seq<int>) {
    exists i, j :: 0 <= i < j < |ids| && ids[i] == ids[j]
  }

  /** The first position whose id already occurs earlier, if any. */
  function FirstRepeat(ids: seq<int>): (r: Option<nat>)
    ensures r.None? <==> !HasDuplicate(ids)
    ensures r.Some? ==> r.value < |ids| && ids[r.value] in ids[..r.value] && !HasDuplicate(ids[..r.value])
  {
    if ids == [] then None
    else
      var front := ids[..|ids| - 1];
      assert forall i :: 0 <= i < |front| ==> front[i] == ids[i];
      match FirstRepeat(front)
      case Some(k) =>
        assert front[..k] == ids[..k];
        Some(k)
      case None =>
        if ids[|ids| - 1] in front then
          Some(|ids| - 1)
        else
          assert forall i :: 0 <= i < |front| ==> ids[i] != ids[|ids| - 1];
          None
  }

  /** Extending a list keeps the first repeat of a prefix that has one. */
  lemma {:induction false} FirstRepeatOfPrefix(ids: seq<int>, j: nat)
    requires j <= |ids| && FirstRepeat(ids[..j]).Some?
    ensures FirstRepeat(ids) == FirstRepeat(ids[..j])
    decreases |ids| - j
  {
    if j == |ids| {
      assert ids[..j] == ids;
    } else {
      FirstRepeatOfPrefix(ids[..|ids| - 1], j);
      assert ids[..|ids| - 1][..j] == ids[..j];
    }
  }

  /** validate_dublicate: scan the values, remembering the ids seen; stop at
      the first id seen before. */
  method ValidateDuplicate(values: seq<WriteValue>) returns (r: Outcome<ValidationError>)
    ensures r.Pass? <==> !HasDuplicate(Ids(values))
    ensures r.Fail? ==>
      (FirstRepeat(Ids(values)).Some? && r.error == Repeated(Ids(values)[FirstRepeat(Ids(values)).value]))
  {
    var ids: seq<int> := [];
    for i := 0 to |values|
      invariant ids == Ids(values)[..i]
      invariant FirstRepeat(ids) == None
    {
      var id := IdOf(values[i]);
      assert Ids(values)[..i + 1] == ids + [id];
      assert (ids + [id])[..i] == ids;
      if id !in ids {
        ids := ids + [id];
      } else {
        FirstRepeatOfPrefix(Ids(values), i + 1);
        return Fail(Repeated(id));
      }
    }
    assert ids == Ids(values);
    return Pass;
  }

  /** validate_ingredients: an empty list is refused before the duplicate scan;
      a list that passes is returned as it came. */
  method ValidateIngredients(values: seq<IngredientInput>) returns (r: Result<seq<IngredientInput>, ValidationError>)
    ensures |values| == 0 ==> r == Err(NoIngredientGiven)
    ensures r.Ok? <==> |values| > 0 && !HasDuplicate(IngredientIds(values))
    ensures r.Ok? ==> r.value == values
  {
    if |values| == 0 {
      return Err(NoIngredientGiven);
    }
    var items := seq(|values|, i requires 0 <= i < |values| => IngredientItem(values[i]));
    assert Ids(items) == IngredientIds(values);
    var scan := ValidateDuplicate(items);
    if scan.Fail? {
      return Err(scan.error);
    }
    return Ok(values);
  }

  function IngredientIds(values: seq<IngredientInput>): (ids: seq<int>)
    ensures |ids| == |values|
    ensures forall i :: 0 <= i < |values| ==> ids[i] == values[i].id
  {
    seq(|values|, i requires 0 <= i < |values| => values[i].id)
  }

  /** validate_tags: the same two checks over the chosen tags. */
  method ValidateTags(tagIds: seq<int>) returns (r: Result<seq<int>, ValidationError>)
    ensures |tagIds| == 0 ==> r == Err(NoTagGiven)
    ensures r.Ok? <==> |tagIds| > 0 && !HasDuplicate(tagIds)
    ensures r.Ok? ==> r.value == tagIds
  {
    if |tagIds| == 0 {
      return Err(NoTagGiven);
    }
    var tags := seq(|tagIds|, i requires 0 <= i < |tagIds| => TagObject(tagIds[i]));
    assert Ids(tags) == tagIds;
    var scan := ValidateDuplicate(tags);
    if scan.Fail? {
      return Err(scan.error);
    }
    return Ok(tagIds);
  }

  /** RecipePostSerializer.validate: both lists must be present, ingredients first. */
  function ValidatePresence(ingredients: Option<seq<IngredientInput>>, tags: Option<seq<int>>): (r: Outcome<ValidationError>)
    ensures r.Pass? <==> ingredients.Some? && tags.Some?
    ensures ingredients.None? ==> r == Fail(AddIngredients)
  {
    if ingredients.None? then Fail(AddIngredients)
    else if tags.None? then Fail(AddTags)
    else Pass
  }

  // ---------------------------------------------------------------------
  // Join rows of a recipe write

  /** One join row per item, in item order, all naming `recipe`. */
  function JoinRows(ingredients: seq<IngredientInput>, recipe: int): seq<IngredientRecipe> {
    seq(|ingredients|, i requires 0 <= i < |ingredients| =>
      IngredientRecipe(recipe, ingredients[i].id, ingredients[i].amount))
  }

  /** irngredientrecipe_create: build the rows one item at a time (the bulk
      insert that follows is the store's). */
  method IngredientRecipeCreate(ingredients: seq<IngredientInput>, instance: int) returns (relationship: seq<IngredientRecipe>)
    ensures relationship == JoinRows(ingredients, instance)
  {
    relationship := [];
    for i := 0 to |ingredients|
      invariant relationship == JoinRows(ingredients[..i], instance)
    {
      relationship := relationship + [IngredientRecipe(instance, ingredients[i].id, ingredients[i].amount)];
    }
    assert ingredients[..|ingredients|] == ingredients;
  }

  /** Items with distinct ids give rows with distinct (recipe, ingredient)
      pairs, and every row is for `recipe` and comes from an item. */
  lemma JoinRowsUnique(ingredients: seq<IngredientInput>, recipe: int)
    requires !HasDuplicate(IngredientIds(ingredients))
    ensures UniqueRecipeIngredient(set row | row in JoinRows(ingredients, recipe))
    ensures forall row :: row in JoinRows(ingredients, recipe) ==>
      row.recipe == recipe && IngredientInput(row.ingredient, row.amount) in ingredients
  {
    var rows := JoinRows(ingredients, recipe);
    var ids := IngredientIds(ingredients);
    forall x, y | x in rows && y in rows && x.ingredient == y.ingredient ensures x == y {
      var i :| 0 <= i < |rows| && rows[i] == x;
      var j :| 0 <= j < |rows| && rows[j] == y;
      assert ids[i] == ids[j];
      assert forall a, b :: 0 <= a < b < |ids| ==> ids[a] != ids[b];
    }
  }

  /** As written, items that pass the field checks give rows with a known
      ingredient and a non-zero amount, and nothing more: an item with a
      negative amount passes and its row breaks the lower bound of 1. */
  lemma JoinRowsAsWritten(ingredients: seq<IngredientInput>, recipe: int, ingredientIds: set<int>, id: int)
    requires forall i :: 0 <= i < |ingredients| ==> ValidateIngredientItem(ingredients[i], ingredientIds).Ok?
    requires id != 0 && id in ingredientIds
    ensures forall row :: row in JoinRows(ingredients, recipe) ==>
      row.amount != 0 && row.ingredient in ingredientIds
    ensures var negative := [IngredientInput(id, -1)];
      && ValidateIngredientItem(negative[0], ingredientIds).Ok?
      && !ValidIngredientRecipe(JoinRows(negative, recipe)[0])
  {
    forall row | row in JoinRows(ingredients, recipe)
      ensures row.amount != 0 && row.ingredient in ingredientIds
    {
      var i :| 0 <= i < |ingredients| && JoinRows(ingredients, recipe)[i] == row;
      assert ValidateIngredientItem(ingredients[i], ingredientIds).Ok?;
    }
  }

  /** With the corrected amount check, items whose id and amount pass give
      rows within the join table's bounds. */
  lemma JoinRowsValid(ingredients: seq<IngredientInput>, recipe: int, ingredientIds: set<int>)
    requires forall i :: 0 <= i < |ingredients| ==>
      ValidateId(ingredients[i].id, ingredientIds).Ok? && ValidateAmountAtLeastOne(ingredients[i].amount).Ok?
    ensures forall row :: row in JoinRows(ingredients, recipe) ==>
      ValidIngredientRecipe(row) && row.ingredient in ingredientIds
  {
    forall row | row in JoinRows(ingredients, recipe)
      ensures ValidIngredientRecipe(row) && row.ingredient in ingredientIds
    {
      var i :| 0 <= i < |ingredients| && JoinRows(ingredients, recipe)[i] == row;
      assert ValidateAmountAtLeastOne(ingredients[i].amount).Ok?;
    }
  }

  // ---------------------------------------------------------------------
  // Image upload: the data-URI header

  /** What the client sent in the `image` field: a string, or any other value. */
  datatype ImageData = StringData(s: string) | OtherData

  /** Passed on to the image field unchanged, or a file named from the header
      whose content is the base64 text after the header. */
  datatype ImageValue = Unchanged(data: ImageData) | DecodedFile(name: string, encoded: string)

  /** The split on ";base64," did not give exactly two pieces. */
  datatype ImageError = UnpackError

  const DATA_IMAGE: string := "data:image"
  const BASE64_MARK: string := ";base64,"

  /** Base64ImageField.to_internal_value up to the decoding: a string that
      starts with "data:image" is split at ";base64,", which must give exactly
      two pieces; the file is named "temp." followed by the text after the last
      '/' of the first piece. */
  function ToInternalValue(data: ImageData): (r: Result<ImageValue, ImageError>)
    ensures !(data.StringData? && StartsWith(data.s, DATA_IMAGE)) ==> r == Ok(Unchanged(data))
    ensures data.StringData? && StartsWith(data.s, DATA_IMAGE) ==>
      (r.Ok? <==> |Split(data.s, BASE64_MARK)| == 2) && (r.Ok? ==> r.value.DecodedFile?)
  {
    if data.StringData? && StartsWith(data.s, DATA_IMAGE) then
      var parts := Split(data.s, BASE64_MARK);
      if |parts| != 2 then Err(UnpackError)
      else
        var format, imgstr := parts[0], parts[1];
        var filetype := Last(Split(format, "/"));
        Ok(DecodedFile("temp." + filetype, imgstr))
    else Ok(Unchanged(data))
  }

  /** A decoded upload splits the string into header, marker and payload, and
      its name is "temp." plus the header's text after its last '/'. */
  lemma DecodedFileMeaning(s: string)
    requires StartsWith(s, DATA_IMAGE) && |Split(s, BASE64_MARK)| == 2
    ensures var r := ToInternalValue(StringData(s));
      && r.Ok? && r.value.DecodedFile?
      && exists header, ext ::
        && s == header + BASE64_MARK + r.value.encoded
        && !Contains(header, BASE64_MARK) && !Contains(r.value.encoded, BASE64_MARK)
        && r.value.name == "temp." + ext
        && !Contains(ext, "/")
        && (ext == header || exists front :: header == front + "/" + ext)
  {
    var parts := Split(s, BASE64_MARK);
    JoinSplit(s, BASE64_MARK);
    assert parts[1..] == [parts[1]];
    assert s == parts[0] + BASE64_MARK + parts[1];
    AfterLastSeparator(parts[0], "/");
    var ext := Last(Split(parts[0], "/"));
    assert ToInternalValue(StringData(s)) == Ok(DecodedFile("temp." + ext, parts[1]));
  }

  /** A data URI "data:image/<ext>;base64,<payload>" gives a file named
      "temp.<ext>" holding the payload, when neither part holds ';' and the
      extension holds no '/'. */
  lemma ImageUpload(ext: string, payload: string)
    requires forall j :: 0 <= j < |ext| ==> ext[j] != ';' && ext[j] != '/'
    requires forall j :: 0 <= j < |payload| ==> payload[j] != ';'
    ensures ToInternalValue(StringData(DATA_IMAGE + "/" + ext + BASE64_MARK + payload))
         == Ok(DecodedFile("temp." + ext, payload))
  {
    var header := DATA_IMAGE + "/" + ext;
    var s := header + BASE64_MARK + payload;
    assert s[..|DATA_IMAGE|] == DATA_IMAGE;
    forall j | 0 <= j < |header| ensures header[j] != ';' {
      if j > |DATA_IMAGE| {
        assert header[j] == ext[j - |DATA_IMAGE| - 1];
      }
    }
    SplitPair(header, BASE64_MARK, payload);
    SplitPair(DATA_IMAGE, "/", ext);
  }

  // ---------------------------------------------------------------------
  // A subscription's recipes, limited by `recipes_limit`

  /** The `recipes_limit` query parameter: absent, an integer, or text that is not one. */
  datatype LimitParam = NoLimit | Limit(n: int) | NotANumber

  datatype QueryError = NegativeIndexing | NotAnInteger

  /** UserSubscribeSerializer.get_recipes: the author's recipes, the first
      `recipes_limit` of them when that parameter is present. */
  function GetRecipes(recipes: seq<Recipe>, limit: LimitParam): (r: Result<seq<Recipe>, QueryError>)
    ensures limit.NoLimit? ==> r == Ok(recipes)
    ensures limit.Limit? && limit.n >= 0 ==>
      (r.Ok? && |r.value| == (if limit.n < |recipes| then limit.n else |recipes|)
       && r.value == recipes[..|r.value|])
    ensures limit.Limit? && limit.n < 0 ==> r == Err(NegativeIndexing)
    ensures limit.NotANumber? ==> r == Err(NotAnInteger)
    ensures r.Ok? && NewestFirst(recipes) ==> NewestFirst(r.value)
  {
    match limit
    case NoLimit => Ok(recipes)
    case NotANumber => Err(NotAnInteger)
    case Limit(n) =>
      if n < 0 then Err(NegativeIndexing)
      else if n < |recipes| then Ok(recipes[..n])
      else Ok(recipes)
  }

  // ---------------------------------------------------------------------
  // Subscriptions, favorites and cart entries

  /** SubscribeSerializer.validate_subscribed: nobody subscribes to themselves. */
  function ValidateSubscribed(subscribed: int, currentUser: int): (r: Result<int, ValidationError>)
    ensures r.Ok? <==> subscribed != currentUser
    ensures r.Ok? ==> r.value == subscribed
  {
    if subscribed == currentUser then Err(SelfSubscription) else Ok(subscribed)
  }

  /** UniqueTogetherValidator over (user, target). */
  function UniqueTogether(stored: set<(int, int)>, user: int, target: int): (r: Outcome<ValidationError>)
    ensures r.Pass? <==> (user, target) !in stored
  {
    if (user, target) in stored then Fail(NotUnique) else Pass
  }

  /** The whole check of a subscription write, in the serializer's order: the
      target must be a user, must not be the requester, and the pair must be new. */
  function ValidateSubscription(users: set<int>, stored: set<(int, int)>, user: int, subscribed: int): (r: Outcome<ValidationError>)
    ensures r.Pass? <==> subscribed in users && subscribed != user && (user, subscribed) !in stored
    ensures subscribed in users && subscribed == user ==> r == Fail(SelfSubscription)
  {
    if subscribed !in users then Fail(DoesNotExist(subscribed))
    else if ValidateSubscribed(subscribed, user).Err? then Fail(SelfSubscription)
    else UniqueTogether(stored, user, subscribed)
  }

  /** The whole check of a favorite or cart write: the recipe must exist and
      the pair must be new. */
  function ValidateUserRecipe(recipes: set<int>, stored: set<(int, int)>, user: int, recipe: int): (r: Outcome<ValidationError>)
    ensures r.Pass? <==> recipe in recipes && (user, recipe) !in stored
    ensures recipe !in recipes ==> r == Fail(DoesNotExist(recipe))
  {
    if recipe !in recipes then Fail(DoesNotExist(recipe))
    else UniqueTogether(stored, user, recipe)
  }
}
