/** The relational store: the `users` and `recipes` tables, shared by both
    services. */
module Persistence {
  import opened Wrappers
  import opened Entity
  import opened Repository

  /** `order` lists every recipe id exactly once. The queries have no ORDER
      BY, so this order is the model's choice: new rows go last and updated
      rows keep their place. */
  ghost predicate OrderListsKeys(recipes: map<string, Recipe>, order: seq<string>)
  {
    && (forall i :: 0 <= i < |order| ==> order[i] in recipes)
    && (forall id :: id in recipes ==> id in order)
    && (forall i, j :: 0 <= i < j < |order| ==> order[i] != order[j])
  }

  /** Every stored recipe carries its own id, has its NOT NULL columns set, and
      is owned by a stored user. */
  ghost predicate RecipesWellFormed(recipes: map<string, Recipe>, users: map<string, User>)
  {
    forall id :: id in recipes ==>
      && recipes[id].id == Some(id)
      && RequiredColumnsSet(recipes[id])
      && recipes[id].userId.value in users
  }

  /** The recipe table's rows in the store's order. */
  function RowsOf(recipes: map<string, Recipe>, order: seq<string>): (rows: seq<Recipe>)
    requires forall i :: 0 <= i < |order| ==> order[i] in recipes
    ensures |rows| == |order|
    ensures forall i :: 0 <= i < |order| ==> rows[i] == recipes[order[i]]
  {
    seq(|order|, i requires 0 <= i < |order| => recipes[order[i]])
  }

  /** Each row carries its own id, so rows listed under distinct ids differ. */
  lemma RowsDistinct(recipes: map<string, Recipe>, users: map<string, User>, order: seq<string>)
    requires OrderListsKeys(recipes, order) && RecipesWellFormed(recipes, users)
    ensures NoDuplicates(RowsOf(recipes, order))
  {
    var rows := RowsOf(recipes, order);
    forall i, j | 0 <= i < j < |rows|
      ensures rows[i] != rows[j]
    {
      assert rows[i].id == Some(order[i]) && rows[j].id == Some(order[j]);
    }
  }

  /** Each recipe a listing or a search returns appears in it exactly once. */
  lemma ListedOnce(recipes: map<string, Recipe>, users: map<string, User>, order: seq<string>,
                   keep: Recipe -> bool, x: Recipe)
    requires OrderListsKeys(recipes, order) && RecipesWellFormed(recipes, users)
    requires x in Filter(RowsOf(recipes, order), keep)
    ensures multiset(Filter(RowsOf(recipes, order), keep))[x] == 1
  {
    RowsDistinct(recipes, users, order);
    OccursOnce(Filter(RowsOf(recipes, order), keep), x);
  }

  /** Every row names an owner that is a stored user. */
  ghost predicate OwnersStored(rows: seq<Recipe>, users: map<string, User>)
  {
    forall x :: x in rows ==> x.userId.Some? && x.userId.value in users
  }

  /** The rows are exactly the table's contents. */
  lemma RowsAreTheTable(recipes: map<string, Recipe>, order: seq<string>)
    requires OrderListsKeys(recipes, order)
    ensures forall x :: x in RowsOf(recipes, order) <==> x in recipes.Values
  {
    var rows := RowsOf(recipes, order);
    forall x | x in recipes.Values
      ensures x in rows
    {
      var id :| id in recipes && recipes[id] == x;
      var i :| 0 <= i < |order| && order[i] == id;
      assert rows[i] == x;
    }
  }

  /** A soft-deleted recipe is gone from the active listing and from name and
      ingredient search, but type search and the owner's listing still return
      it. */
  lemma SoftDeletedVisibility(recipes: map<string, Recipe>, order: seq<string>, id: string,
                              keyword: string, render: seq<JsonObject> -> string)
    requires OrderListsKeys(recipes, order) && id in recipes && !recipes[id].isActive
    ensures recipes[id] !in FindByIsActiveTrue(RowsOf(recipes, order))
    ensures recipes[id] !in SearchByName(RowsOf(recipes, order), keyword)
    ensures recipes[id] !in SearchByIngredient(RowsOf(recipes, order), keyword, render)
    ensures recipes[id].recipeType.Some? ==>
      recipes[id] in FindByRecipeType(RowsOf(recipes, order), recipes[id].recipeType.value)
    ensures recipes[id].userId.Some? ==>
      recipes[id] in FindByUserId(RowsOf(recipes, order), recipes[id].userId.value)
  {
    RowsAreTheTable(recipes, order);
    assert recipes[id] in recipes.Values;
  }

  class Database {
    var users: map<string, User>
    var recipes: map<string, Recipe>
    var order: seq<string>
    /** How the store renders the jsonb ingredients column as text. */
    const ingredientsText: seq<JsonObject> -> string

    ghost predicate Valid()
      reads this
    {
      && KeyedById(users)
      && EmailsUnique(users)
      && OrderListsKeys(recipes, order)
      && RecipesWellFormed(recipes, users)
    }

    /** All recipe rows, in the store's natural order. */
    function Rows(): (rows: seq<Recipe>)
      reads this
      requires Valid()
      ensures forall x :: x in rows <==> x in recipes.Values
      ensures OwnersStored(rows, users)
      ensures NoDuplicates(rows)
    {
      RowsAreTheTable(recipes, order);
      RowsDistinct(recipes, users, order);
      RowsOf(recipes, order)
    }

    /** An empty store. */
    constructor (ingredientsText: seq<JsonObject> -> string)
      ensures Valid()
      ensures users == map[] && recipes == map[] && order == []
      ensures this.ingredientsText == ingredientsText
    {
      users, recipes, order := map[], map[], [];
      this.ingredientsText := ingredientsText;
    }
  }
}
