/** Recipe lifecycle: creation bound to an owner, reads, owner-only update and
    soft delete, and the search delegations. */
module RecipeServices {
  import opened Wrappers
  import opened Messages
  import opened Entity
  import opened Repository
  import opened Persistence

  /** What `createRecipe` saves: the given recipe with its owner set, forced
      active whatever flag it came with, under the generated id. Every other
      field is kept as given. */
  function BindToOwner(recipe: Recipe, userId: string, id: string): (r: Recipe)
    ensures r.userId == Some(userId) && r.isActive && r.id == Some(id)
    ensures r.(id := recipe.id, userId := recipe.userId, isActive := recipe.isActive) == recipe
  {
    recipe.(id := Some(id), userId := Some(userId), isActive := true)
  }

  /** The ten setters of `updateRecipe`: the result is the new data, null
      fields included, except that the id, the owner, the active flag, the
      image list, the user comments and the images stay those of the stored
      recipe. */
  function ApplyUpdate(stored: Recipe, updated: Recipe): (r: Recipe)
    ensures r == updated.(id := stored.id, imageList := stored.imageList, userComments := stored.userComments,
                          isActive := stored.isActive, userId := stored.userId, images := stored.images)
  {
    stored.(name := updated.name, ingredientsList := updated.ingredientsList, temperature := updated.temperature,
            cookingTime := updated.cookingTime, instructions := updated.instructions, recipeType := updated.recipeType,
            creatorRating := updated.creatorRating, creatorComment := updated.creatorComment,
            externalLinks := updated.externalLinks, language := updated.language)
  }

  /** `setIsActive(false)`: only the flag changes. */
  function SoftDeleted(stored: Recipe): (r: Recipe)
    ensures !r.isActive && r.(isActive := stored.isActive) == stored
  {
    stored.(isActive := false)
  }

  /** Update is a full overwrite: nothing of an earlier update survives a later one. */
  lemma UpdateOverwritesEarlierUpdate(stored: Recipe, first: Recipe, second: Recipe)
    ensures ApplyUpdate(ApplyUpdate(stored, first), second) == ApplyUpdate(stored, second)
  {
  }

  /** Soft delete is idempotent. */
  lemma SoftDeleteIdempotent(stored: Recipe)
    ensures SoftDeleted(SoftDeleted(stored)) == SoftDeleted(stored)
  {
  }

  class RecipeService {
    const db: Database

    constructor (db: Database)
      ensures this.db == db
    {
      this.db := db;
    }

    /** `createRecipe`: the owner must exist; the saved row is bound to them
        and active, and is appended to the store's order. */
    method CreateRecipe(recipe: Recipe, userId: string, freshId: string) returns (r: Result<Recipe>)
      requires db.Valid() && freshId !in db.recipes
      modifies db
      ensures db.Valid()
      ensures userId !in old(db.users) ==> r == Failure(RuntimeError(UserNotFound)) && unchanged(db)
      ensures r.Success? <==> userId in old(db.users) && RequiredColumnsSet(BindToOwner(recipe, userId, freshId))
      ensures userId in old(db.users) && r.Failure? ==> r == Failure(RuntimeError(NotNullViolation)) && unchanged(db)
      ensures r.Success? ==>
        && r.value == BindToOwner(recipe, userId, freshId)
        && db.recipes == old(db.recipes)[freshId := r.value]
        && db.order == old(db.order) + [freshId]
        && db.users == old(db.users)
    {
      if userId !in db.users {
        return Failure(RuntimeError(UserNotFound));
      }
      var saved := BindToOwner(recipe, userId, freshId);
      if !RequiredColumnsSet(saved) {
        return Failure(RuntimeError(NotNullViolation));
      }
      db.recipes := db.recipes[freshId := saved];
      db.order := db.order + [freshId];
      r := Success(saved);
    }

    /** `getAllActiveRecipes`. */
    method GetAllActiveRecipes() returns (rows: seq<Recipe>)
      requires db.Valid()
      ensures rows == FindByIsActiveTrue(db.Rows())
      ensures forall x :: x in rows <==> x in db.recipes.Values && x.isActive
    {
      rows := FindByIsActiveTrue(db.Rows());
    }

    /** `getRecipeById`: any stored recipe, soft-deleted ones included. */
    method GetRecipeById(id: string) returns (r: Result<Recipe>)
      requires db.Valid()
      ensures r.Success? <==> id in db.recipes
      ensures r.Success? ==> r.value == db.recipes[id]
      ensures r.Failure? ==> r.error == RuntimeError(RecipeNotFound)
    {
      if id in db.recipes {
        r := Success(db.recipes[id]);
      } else {
        r := Failure(RuntimeError(RecipeNotFound));
      }
    }

    /** `getRecipesByUser`: the owner's recipes, soft-deleted ones included. */
    method GetRecipesByUser(userId: string) returns (rows: seq<Recipe>)
      requires db.Valid()
      ensures rows == FindByUserId(db.Rows(), userId)
      ensures forall x :: x in rows <==> x in db.recipes.Values && x.userId == Some(userId)
    {
      rows := FindByUserId(db.Rows(), userId);
    }

    /** `updateRecipe`: only the owner may update; the ten fields are
        overwritten and nothing else in the store changes. */
    method UpdateRecipe(id: string, updated: Recipe, userId: string) returns (r: Result<Recipe>)
      requires db.Valid()
      modifies db
      ensures db.Valid()
      ensures id !in old(db.recipes) ==> r == Failure(RuntimeError(RecipeNotFound)) && unchanged(db)
      ensures id in old(db.recipes) && old(db.recipes)[id].userId != Some(userId) ==>
        r == Failure(RuntimeError(UnauthorizedUpdate)) && unchanged(db)
      ensures (&& id in old(db.recipes) && old(db.recipes)[id].userId == Some(userId)
               && !RequiredColumnsSet(ApplyUpdate(old(db.recipes)[id], updated))) ==>
        r == Failure(RuntimeError(NotNullViolation)) && unchanged(db)
      ensures r.Success? <==>
        && id in old(db.recipes) && old(db.recipes)[id].userId == Some(userId)
        && RequiredColumnsSet(ApplyUpdate(old(db.recipes)[id], updated))
      ensures r.Failure? ==> unchanged(db)
      ensures r.Success? ==>
        && r.value == ApplyUpdate(old(db.recipes)[id], updated)
        && db.recipes == old(db.recipes)[id := r.value]
        && db.users == old(db.users) && db.order == old(db.order)
      ensures db.recipes.Keys == old(db.recipes).Keys
      ensures forall k :: k in db.recipes ==> db.recipes[k].userId == old(db.recipes)[k].userId
    {
      var found := GetRecipeById(id);
      if found.Failure? {
        return found;
      }
      var recipe := found.value;
      if recipe.userId != Some(userId) {
        return Failure(RuntimeError(UnauthorizedUpdate));
      }
      recipe := ApplyUpdate(recipe, updated);
      if !RequiredColumnsSet(recipe) {
        return Failure(RuntimeError(NotNullViolation));
      }
      db.recipes := db.recipes[id := recipe];
      r := Success(recipe);
    }

    /** `deleteRecipe`: only the owner may delete; the row stays, inactive.
        Deleting an already inactive recipe succeeds again. */
    method DeleteRecipe(id: string, userId: string) returns (r: Result<()>)
      requires db.Valid()
      modifies db
      ensures db.Valid()
      ensures id !in old(db.recipes) ==> r == Failure(RuntimeError(RecipeNotFound)) && unchanged(db)
      ensures id in old(db.recipes) && old(db.recipes)[id].userId != Some(userId) ==>
        r == Failure(RuntimeError(UnauthorizedDelete)) && unchanged(db)
      ensures r.Success? <==> id in old(db.recipes) && old(db.recipes)[id].userId == Some(userId)
      ensures r.Success? ==>
        && db.recipes == old(db.recipes)[id := SoftDeleted(old(db.recipes)[id])]
        && db.users == old(db.users) && db.order == old(db.order)
      ensures db.recipes.Keys == old(db.recipes).Keys
      ensures forall k :: k in db.recipes ==> db.recipes[k].userId == old(db.recipes)[k].userId
    {
      var found := GetRecipeById(id);
      if found.Failure? {
        return Failure(found.error);
      }
      var recipe := found.value;
      if recipe.userId != Some(userId) {
        return Failure(RuntimeError(UnauthorizedDelete));
      }
      db.recipes := db.recipes[id := SoftDeleted(recipe)];
      r := Success(());
    }

    /** `searchByName`. */
    method SearchByName(keyword: string) returns (rows: seq<Recipe>)
      requires db.Valid()
      ensures rows == Repository.SearchByName(db.Rows(), keyword)
      ensures forall x :: x in rows <==> x in db.recipes.Values && x.isActive && NameMatches(x, keyword)
    {
      rows := Repository.SearchByName(db.Rows(), keyword);
    }

    /** `searchByIngredient`. */
    method SearchByIngredient(ingredient: string) returns (rows: seq<Recipe>)
      requires db.Valid()
      ensures rows == Repository.SearchByIngredient(db.Rows(), ingredient, db.ingredientsText)
      ensures forall x :: x in rows <==>
        x in db.recipes.Values && x.isActive && IngredientsMatch(x, ingredient, db.ingredientsText)
    {
      rows := Repository.SearchByIngredient(db.Rows(), ingredient, db.ingredientsText);
    }

    /** `searchByType`: no filter on the active flag. */
    method SearchByType(recipeType: RecipeType) returns (rows: seq<Recipe>)
      requires db.Valid()
      ensures rows == FindByRecipeType(db.Rows(), recipeType)
      ensures forall x :: x in rows <==> x in db.recipes.Values && x.recipeType == Some(recipeType)
    {
      rows := FindByRecipeType(db.Rows(), recipeType);
    }
  }
}
