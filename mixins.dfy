/** The add/remove endpoints for favorites, cart entries and subscriptions.
    Each keeps a table of (user, target) pairs; adding answers 201 and inserts
    the pair, removing answers 204 and deletes it, and the error answers leave
    the table as it was. A pair (u, t) stands for the row `UserRecipe(u, t)` of
    `Store.favorites` or `Store.shoppingCart`, or `Subscribe(u, t)` of
    `Store.subscriptions`: the views are generic over the model and compare
    rows by the two fields of their unique-together constraint. */
module Mixins {
  import opened Common
  import opened Serializers

  const HTTP_201_CREATED: int := 201
  const HTTP_204_NO_CONTENT: int := 204
  const HTTP_400_BAD_REQUEST: int := 400
  const HTTP_404_NOT_FOUND: int := 404

  /** The answer to adding recipe `recipe` for `user`: 400 when the serializer
      refuses (no such recipe, or the pair is stored already), else 201. */
  function AddStatus(recipes: set<int>, pairs: set<(int, int)>, user: int, recipe: int): (status: int)
    ensures status == HTTP_201_CREATED <==> recipe in recipes && (user, recipe) !in pairs
    ensures status == HTTP_201_CREATED || status == HTTP_400_BAD_REQUEST
  {
    if ValidateUserRecipe(recipes, pairs, user, recipe).Pass? then HTTP_201_CREATED else HTTP_400_BAD_REQUEST
  }

  /** The answer to removing recipe `recipe` for `user`: 404 when there is no
      such recipe, 400 when the user holds no such pair, else 204. */
  function RemoveStatus(recipes: set<int>, pairs: set<(int, int)>, user: int, recipe: int): (status: int)
    ensures status == HTTP_204_NO_CONTENT <==> recipe in recipes && (user, recipe) in pairs
    ensures status == HTTP_404_NOT_FOUND <==> recipe !in recipes
    ensures status == HTTP_400_BAD_REQUEST <==> recipe in recipes && (user, recipe) !in pairs
  {
    if recipe !in recipes then HTTP_404_NOT_FOUND
    else if (user, recipe) !in pairs then HTTP_400_BAD_REQUEST
    else HTTP_204_NO_CONTENT
  }

  /** The answer to `user` subscribing to `target`: 404 when there is no such
      user, 400 when the serializer refuses (oneself, or already subscribed),
      else 201. */
  function SubscribeStatus(users: set<int>, pairs: set<(int, int)>, user: int, target: int): (status: int)
    ensures status == HTTP_201_CREATED <==> target in users && target != user && (user, target) !in pairs
    ensures status == HTTP_404_NOT_FOUND <==> target !in users
    ensures target in users && target == user ==> status == HTTP_400_BAD_REQUEST
    ensures target in users && (user, target) in pairs ==> status == HTTP_400_BAD_REQUEST
    ensures status in {HTTP_201_CREATED, HTTP_400_BAD_REQUEST, HTTP_404_NOT_FOUND}
  {
    if target !in users then HTTP_404_NOT_FOUND
    else if ValidateSubscription(users, pairs, user, target).Fail? then HTTP_400_BAD_REQUEST
    else HTTP_201_CREATED
  }

  /** The answer to `user` unsubscribing from `target`: 404 when there is no
      such user, 400 when not subscribed, else 204. */
  function UnsubscribeStatus(users: set<int>, pairs: set<(int, int)>, user: int, target: int): (status: int)
    ensures status == HTTP_204_NO_CONTENT <==> target in users && (user, target) in pairs
    ensures status == HTTP_404_NOT_FOUND <==> target !in users
    ensures status == HTTP_400_BAD_REQUEST <==> target in users && (user, target) !in pairs
  {
    RemoveStatus(users, pairs, user, target)
  }

  /** The table after a request: the pair goes in on 201, out on 204, and
      nothing changes on an error. */
  function After(pairs: set<(int, int)>, pair: (int, int), status: int): (r: set<(int, int)>)
    ensures pair in r <==> status == HTTP_201_CREATED || (status != HTTP_204_NO_CONTENT && pair in pairs)
    ensures forall p :: p != pair ==> (p in r <==> p in pairs)
  {
    if status == HTTP_201_CREATED then pairs + {pair}
    else if status == HTTP_204_NO_CONTENT then pairs - {pair}
    else pairs
  }

  /** Adding and then removing the same recipe succeeds both times and gives
      back the table the user started with. */
  lemma AddThenRemove(recipes: set<int>, pairs: set<(int, int)>, user: int, recipe: int)
    requires AddStatus(recipes, pairs, user, recipe) == HTTP_201_CREATED
    ensures var added := After(pairs, (user, recipe), HTTP_201_CREATED);
      && RemoveStatus(recipes, added, user, recipe) == HTTP_204_NO_CONTENT
      && After(added, (user, recipe), HTTP_204_NO_CONTENT) == pairs
  {
    assert (user, recipe) !in pairs;
    assert pairs + {(user, recipe)} - {(user, recipe)} == pairs;
  }

  /** A repeated add is refused and leaves the table as the first add left it;
      a repeated remove is refused likewise. */
  lemma RepeatIsRefused(recipes: set<int>, pairs: set<(int, int)>, user: int, recipe: int)
    ensures var once := After(pairs, (user, recipe), AddStatus(recipes, pairs, user, recipe));
      recipe in recipes ==> AddStatus(recipes, once, user, recipe) == HTTP_400_BAD_REQUEST
    ensures var once := After(pairs, (user, recipe), RemoveStatus(recipes, pairs, user, recipe));
      recipe in recipes ==> RemoveStatus(recipes, once, user, recipe) == HTTP_400_BAD_REQUEST
  {
  }

  /** A delete of a pair the user does not hold, and a subscription the user
      already holds, are refused with 400 and change nothing. */
  lemma MissingPairIsRefused(keys: set<int>, pairs: set<(int, int)>, user: int, target: int)
    requires target in keys
    ensures (user, target) !in pairs ==>
      && RemoveStatus(keys, pairs, user, target) == HTTP_400_BAD_REQUEST
      && UnsubscribeStatus(keys, pairs, user, target) == HTTP_400_BAD_REQUEST
      && After(pairs, (user, target), HTTP_400_BAD_REQUEST) == pairs
    ensures (user, target) in pairs ==>
      && SubscribeStatus(keys, pairs, user, target) == HTTP_400_BAD_REQUEST
      && After(pairs, (user, target), HTTP_400_BAD_REQUEST) == pairs
  {
  }

  /** A subscription table never pairs a user with themselves, whatever
      sequence of requests it went through. */
  predicate NoSelfSubscription(pairs: set<(int, int)>) {
    forall p :: p in pairs ==> p.0 != p.1
  }

  lemma SubscribeKeepsNoSelf(users: set<int>, pairs: set<(int, int)>, user: int, target: int)
    requires NoSelfSubscription(pairs)
    ensures NoSelfSubscription(After(pairs, (user, target), SubscribeStatus(users, pairs, user, target)))
    ensures NoSelfSubscription(After(pairs, (user, target), UnsubscribeStatus(users, pairs, user, target)))
  {
  }

  /** CreateDestroyAddViewSet, serving favorites or cart entries: `pairs`
      holds the (user, recipe) rows of its table. */
  class CreateDestroyAddViewSet {
    var pairs: set<(int, int)>

    constructor (initial: set<(int, int)>)
      ensures pairs == initial
    {
      pairs := initial;
    }

    /** create: the recipe key from the URL overwrites any `recipe` the client
        sent; the serializer validates; on success the row is saved for the
        requesting user. */
    method Create(user: int, recipePk: int, requestData: map<string, int>, recipes: set<int>)
      returns (status: int)
      modifies this
      ensures status == AddStatus(recipes, old(pairs), user, recipePk)
      ensures pairs == After(old(pairs), (user, recipePk), status)
    {
      var data := requestData["recipe" := recipePk];
      var check := ValidateUserRecipe(recipes, pairs, user, data["recipe"]);
      if check.Fail? {
        return HTTP_400_BAD_REQUEST;
      }
      pairs := pairs + {(user, data["recipe"])};
      return HTTP_201_CREATED;
    }

    /** delete: 404 for an unknown recipe, 400 when the user has no such row,
        otherwise the row is destroyed. */
    method Delete(user: int, recipePk: int, recipes: set<int>) returns (status: int)
      modifies this
      ensures status == RemoveStatus(recipes, old(pairs), user, recipePk)
      ensures pairs == After(old(pairs), (user, recipePk), status)
    {
      if recipePk !in recipes {
        return HTTP_404_NOT_FOUND;
      }
      if (user, recipePk) !in pairs {
        return HTTP_400_BAD_REQUEST;
      }
      pairs := pairs - {(user, recipePk)};
      return HTTP_204_NO_CONTENT;
    }
  }

  /** CreateDestroySubscribeViewSet: `pairs` holds the (user, subscribed) rows. */
  class CreateDestroySubscribeViewSet {
    var pairs: set<(int, int)>

    predicate Valid()
      reads this
    {
      NoSelfSubscription(pairs)
    }

    constructor (initial: set<(int, int)>)
      requires NoSelfSubscription(initial)
      ensures Valid() && pairs == initial
    {
      pairs := initial;
    }

    /** create: 404 for an unknown user; the user key from the URL overwrites
        any `subscribed` the client sent; the serializer validates; on success
        the row is saved for the requesting user. */
    method Create(user: int, userPk: int, requestData: map<string, int>, users: set<int>)
      returns (status: int)
      requires Valid()
      modifies this
      ensures Valid()
      ensures status == SubscribeStatus(users, old(pairs), user, userPk)
      ensures pairs == After(old(pairs), (user, userPk), status)
    {
      if userPk !in users {
        return HTTP_404_NOT_FOUND;
      }
      var data := requestData["subscribed" := userPk];
      var check := ValidateSubscription(users, pairs, user, data["subscribed"]);
      if check.Fail? {
        return HTTP_400_BAD_REQUEST;
      }
      pairs := pairs + {(user, data["subscribed"])};
      return HTTP_201_CREATED;
    }

    /** delete: 404 for an unknown user, 400 when not subscribed, otherwise
        the row is destroyed. */
    method Delete(user: int, userPk: int, users: set<int>) returns (status: int)
      requires Valid()
      modifies this
      ensures Valid()
      ensures status == UnsubscribeStatus(users, old(pairs), user, userPk)
      ensures pairs == After(old(pairs), (user, userPk), status)
    {
      if userPk !in users {
        return HTTP_404_NOT_FOUND;
      }
      if (user, userPk) !in pairs {
        return HTTP_400_BAD_REQUEST;
      }
      pairs := pairs - {(user, userPk)};
      return HTTP_204_NO_CONTENT;
    }
  }
}
