/** The `/api/recipes` endpoints: request and response mapping, and the
    resolution of the authenticated caller before every owner-scoped call.
    A failure result is the exception the endpoint lets escape, which
    `ExceptionHandler.Handle` turns into the HTTP answer. */
module RecipeControllers {
  import opened Wrappers
  import opened Messages
  import opened Http
  import opened Entity
  import opened Repository
  import opened Persistence
  import opened UserServices
  import opened RecipeServices

  /** The request body: the ten fields a client may set. */
  datatype RecipeRequest = RecipeRequest(
    name: Option<string>,
    ingredientsList: Option<seq<JsonObject>>,
    temperature: Option<int>,
    cookingTime: Option<int>,
    instructions: Option<string>,
    recipeType: Option<RecipeType>,
    creatorRating: Option<int>,
    creatorComment: Option<string>,
    externalLinks: Option<seq<string>>,
    language: Option<Language>)
  {
    /** The request names every column the store requires of it. */
    predicate Complete()
    {
      name.Some? && cookingTime.Some? && recipeType.Some? && language.Some?
    }
  }

  /** The response body: the id, the ten client fields and the owner's name. */
  datatype RecipeResponse = RecipeResponse(
    id: Option<string>,
    name: Option<string>,
    ingredientsList: Option<seq<JsonObject>>,
    temperature: Option<int>,
    cookingTime: Option<int>,
    instructions: Option<string>,
    recipeType: Option<RecipeType>,
    creatorRating: Option<int>,
    creatorComment: Option<string>,
    externalLinks: Option<seq<string>>,
    language: Option<Language>,
    creatorUsername: string)
  {
    /** The ten client fields the response carries. */
    function Content(): RecipeRequest
    {
      RecipeRequest(name, ingredientsList, temperature, cookingTime, instructions, recipeType,
                    creatorRating, creatorComment, externalLinks, language)
    }
  }

  /** The ten client fields of a recipe. */
  function ClientFields(r: Recipe): RecipeRequest
  {
    RecipeRequest(r.name, r.ingredientsList, r.temperature, r.cookingTime, r.instructions, r.recipeType,
                  r.creatorRating, r.creatorComment, r.externalLinks, r.language)
  }

  /** `toEntity`: a new recipe carrying exactly the request's ten fields;
      everything else keeps the default of a fresh recipe. */
  function ToEntity(req: RecipeRequest): (r: Recipe)
    ensures ClientFields(r) == req
    ensures r.id == NewRecipe().id && r.userId == NewRecipe().userId && r.isActive == NewRecipe().isActive
    ensures r.imageList == NewRecipe().imageList && r.userComments == NewRecipe().userComments
    ensures r.images == NewRecipe().images
  {
    NewRecipe().(name := req.name, ingredientsList := req.ingredientsList, temperature := req.temperature,
                 cookingTime := req.cookingTime, instructions := req.instructions, recipeType := req.recipeType,
                 creatorRating := req.creatorRating, creatorComment := req.creatorComment,
                 externalLinks := req.externalLinks, language := req.language)
  }

  /** `toResponse`, with the owning user passed in: the creator is named by
      the owner's username, not by an id. */
  function ToResponse(recipe: Recipe, owner: User): (resp: RecipeResponse)
    ensures resp.Content() == ClientFields(recipe)
    ensures resp.id == recipe.id && resp.creatorUsername == owner.username
  {
    RecipeResponse(recipe.id, recipe.name, recipe.ingredientsList, recipe.temperature, recipe.cookingTime,
                   recipe.instructions, recipe.recipeType, recipe.creatorRating, recipe.creatorComment,
                   recipe.externalLinks, recipe.language, owner.username)
  }

  /** `recipes.stream().map(this::toResponse)`, each owner looked up in the user table. */
  function ToResponses(rows: seq<Recipe>, users: map<string, User>): (rs: seq<RecipeResponse>)
    requires OwnersStored(rows, users)
    ensures |rs| == |rows|
    ensures forall i :: 0 <= i < |rows| ==> rs[i] == ToResponse(rows[i], users[rows[i].userId.value])
  {
    seq(|rows|, i requires 0 <= i < |rows| => ToResponse(rows[i], users[rows[i].userId.value]))
  }

  /** A created recipe is saved with every required column exactly when the
      request is complete. */
  lemma CreatedRecipeComplete(req: RecipeRequest, userId: string, id: string)
    ensures RequiredColumnsSet(BindToOwner(ToEntity(req), userId, id)) <==> req.Complete()
  {
  }

  /** An updated recipe keeps its owner, so it has every required column
      exactly when the request is complete. */
  lemma UpdatedRecipeComplete(stored: Recipe, req: RecipeRequest)
    requires stored.userId.Some?
    ensures RequiredColumnsSet(ApplyUpdate(stored, ToEntity(req))) <==> req.Complete()
  {
  }

  /** Round trip of creation: the response echoes the request, names the
      caller as creator and carries the new id. */
  lemma CreateRoundTrip(req: RecipeRequest, caller: User, id: string)
    ensures ToResponse(BindToOwner(ToEntity(req), caller.id, id), caller).Content() == req
    ensures ToResponse(BindToOwner(ToEntity(req), caller.id, id), caller).creatorUsername == caller.username
    ensures ToResponse(BindToOwner(ToEntity(req), caller.id, id), caller).id == Some(id)
  {
    var saved := BindToOwner(ToEntity(req), caller.id, id);
    assert ClientFields(saved) == ClientFields(ToEntity(req));
  }

  /** Round trip of update: the response echoes the request, whatever the
      stored recipe held before, and keeps the stored id. */
  lemma UpdateRoundTrip(stored: Recipe, req: RecipeRequest, owner: User)
    ensures ToResponse(ApplyUpdate(stored, ToEntity(req)), owner).Content() == req
    ensures ToResponse(ApplyUpdate(stored, ToEntity(req)), owner).id == stored.id
  {
    assert ClientFields(ApplyUpdate(stored, ToEntity(req))) == ClientFields(ToEntity(req));
  }

  class RecipeController {
    const db: Database
    const recipeService: RecipeService
    const userService: UserService

    /** Both services work on the one store. */
    ghost predicate Valid()
      reads db
    {
      recipeService.db == db && userService.db == db && db.Valid()
    }

    constructor (recipeService: RecipeService, userService: UserService)
      requires recipeService.db == userService.db
      ensures this.db == recipeService.db
      ensures this.recipeService == recipeService && this.userService == userService
    {
      this.db := recipeService.db;
      this.recipeService := recipeService;
      this.userService := userService;
    }

    /** GET `/api/recipes/public`: the active recipes. */
    method GetAllPublicRecipes() returns (resp: seq<RecipeResponse>)
      requires Valid()
      ensures resp == ToResponses(FindByIsActiveTrue(db.Rows()), db.users)
    {
      var recipes := recipeService.GetAllActiveRecipes();
      resp := ToResponses(recipes, db.users);
    }

    /** GET `/api/recipes`: the same list as the public endpoint; the caller's
        identity is not used. */
    method GetAllRecipes(callerEmail: string) returns (resp: seq<RecipeResponse>)
      requires Valid()
      ensures resp == ToResponses(FindByIsActiveTrue(db.Rows()), db.users)
    {
      var recipes := recipeService.GetAllActiveRecipes();
      resp := ToResponses(recipes, db.users);
    }

    /** GET `/api/recipes/{id}`: any stored recipe, active or not. */
    method GetRecipeById(id: string) returns (r: Result<RecipeResponse>)
      requires Valid()
      ensures r.Success? <==> id in db.recipes
      ensures r.Failure? ==> r.error == RuntimeError(RecipeNotFound)
      ensures r.Success? ==> r.value == ToResponse(db.recipes[id], db.users[db.recipes[id].userId.value])
    {
      var found := recipeService.GetRecipeById(id);
      if found.Failure? {
        return Failure(found.error);
      }
      assert found.value in db.recipes.Values;
      r := Success(ToResponse(found.value, db.users[found.value.userId.value]));
    }

    /** GET `/api/recipes/my-recipes`: the caller's own recipes, active or
        not; an unknown caller is "User not found". */
    method GetMyRecipes(callerEmail: string) returns (r: Result<seq<RecipeResponse>>)
      requires Valid()
      ensures r.Success? <==> ExistsByEmail(db.users, callerEmail)
      ensures r.Failure? ==> r.error == RuntimeError(UserNotFound)
      ensures r.Success? ==>
        r.value == ToResponses(FindByUserId(db.Rows(), FindByEmail(db.users, callerEmail).value.id), db.users)
      ensures r.Success? ==> forall i :: 0 <= i < |r.value| ==>
        r.value[i].creatorUsername == FindByEmail(db.users, callerEmail).value.username
      ensures (r.Success? && forall x :: x in db.recipes.Values ==>
                x.userId != Some(FindByEmail(db.users, callerEmail).value.id)) ==> r.value == []
    {
      var caller := userService.GetUserByEmail(callerEmail);
      if caller.Failure? {
        return Failure(caller.error);
      }
      var user := caller.value;
      var recipes := recipeService.GetRecipesByUser(user.id);
      r := Success(ToResponses(recipes, db.users));
      forall i | 0 <= i < |r.value|
        ensures r.value[i].creatorUsername == user.username
      {
        assert recipes[i] in recipes;
      }
      if recipes != [] {
        assert recipes[0] in recipes;
      }
    }

    /** POST `/api/recipes`: resolves the caller, then creates the recipe
        from the request with the caller as owner. */
    method CreateRecipe(req: RecipeRequest, callerEmail: string, freshId: string) returns (r: Result<RecipeResponse>)
      requires Valid() && freshId !in db.recipes
      modifies db
      ensures Valid()
      ensures !ExistsByEmail(old(db.users), callerEmail) ==> r == Failure(RuntimeError(UserNotFound)) && unchanged(db)
      ensures ExistsByEmail(old(db.users), callerEmail) && !req.Complete() ==>
        r == Failure(RuntimeError(NotNullViolation)) && unchanged(db)
      ensures r.Success? <==> ExistsByEmail(old(db.users), callerEmail) && req.Complete()
      ensures r.Success? ==>
        && r.value.Content() == req && r.value.id == Some(freshId)
        && r.value.creatorUsername == old(FindByEmail(db.users, callerEmail)).value.username
        && db.recipes == old(db.recipes)[freshId :=
             BindToOwner(ToEntity(req), old(FindByEmail(db.users, callerEmail)).value.id, freshId)]
        && db.order == old(db.order) + [freshId]
        && db.users == old(db.users)
    {
      var caller := userService.GetUserByEmail(callerEmail);
      if caller.Failure? {
        return Failure(caller.error);
      }
      var user := caller.value;
      CreatedRecipeComplete(req, user.id, freshId);
      var saved := recipeService.CreateRecipe(ToEntity(req), user.id, freshId);
      if saved.Failure? {
        return Failure(saved.error);
      }
      CreateRoundTrip(req, user, freshId);
      r := Success(ToResponse(saved.value, user));
    }

    /** PUT `/api/recipes/{id}`: resolves the caller, then lets the service
        check ownership and overwrite the ten fields. */
    method UpdateRecipe(id: string, req: RecipeRequest, callerEmail: string) returns (r: Result<RecipeResponse>)
      requires Valid()
      modifies db
      ensures Valid()
      ensures r.Failure? ==> unchanged(db)
      ensures !ExistsByEmail(old(db.users), callerEmail) ==> r == Failure(RuntimeError(UserNotFound))
      ensures ExistsByEmail(old(db.users), callerEmail) && id !in old(db.recipes) ==>
        r == Failure(RuntimeError(RecipeNotFound))
      ensures (&& ExistsByEmail(old(db.users), callerEmail) && id in old(db.recipes)
               && old(db.recipes)[id].userId != Some(old(FindByEmail(db.users, callerEmail)).value.id)) ==>
        r == Failure(RuntimeError(UnauthorizedUpdate))
      ensures (&& ExistsByEmail(old(db.users), callerEmail) && id in old(db.recipes)
               && old(db.recipes)[id].userId == Some(old(FindByEmail(db.users, callerEmail)).value.id)
               && !req.Complete()) ==>
        r == Failure(RuntimeError(NotNullViolation))
      ensures r.Success? <==>
        && ExistsByEmail(old(db.users), callerEmail) && id in old(db.recipes)
        && old(db.recipes)[id].userId == Some(old(FindByEmail(db.users, callerEmail)).value.id)
        && req.Complete()
      ensures r.Success? ==>
        && r.value.Content() == req && r.value.id == Some(id)
        && r.value.creatorUsername == old(FindByEmail(db.users, callerEmail)).value.username
        && db.recipes == old(db.recipes)[id := ApplyUpdate(old(db.recipes)[id], ToEntity(req))]
        && db.users == old(db.users) && db.order == old(db.order)
    {
      var caller := userService.GetUserByEmail(callerEmail);
      if caller.Failure? {
        return Failure(caller.error);
      }
      var user := caller.value;
      if id in db.recipes {
        UpdatedRecipeComplete(db.recipes[id], req);
        UpdateRoundTrip(db.recipes[id], req, user);
      }
      var updated := recipeService.UpdateRecipe(id, ToEntity(req), user.id);
      if updated.Failure? {
        return Failure(updated.error);
      }
      r := Success(ToResponse(updated.value, user));
    }

    /** DELETE `/api/recipes/{id}`: resolves the caller, soft-deletes an own
        recipe and answers 204 with no body. */
    method DeleteRecipe(id: string, callerEmail: string) returns (r: Result<Status>)
      requires Valid()
      modifies db
      ensures Valid()
      ensures r.Failure? ==> unchanged(db)
      ensures !ExistsByEmail(old(db.users), callerEmail) ==> r == Failure(RuntimeError(UserNotFound))
      ensures ExistsByEmail(old(db.users), callerEmail) && id !in old(db.recipes) ==>
        r == Failure(RuntimeError(RecipeNotFound))
      ensures (&& ExistsByEmail(old(db.users), callerEmail) && id in old(db.recipes)
               && old(db.recipes)[id].userId != Some(old(FindByEmail(db.users, callerEmail)).value.id)) ==>
        r == Failure(RuntimeError(UnauthorizedDelete))
      ensures r.Success? <==>
        && ExistsByEmail(old(db.users), callerEmail) && id in old(db.recipes)
        && old(db.recipes)[id].userId == Some(old(FindByEmail(db.users, callerEmail)).value.id)
      ensures r.Success? ==>
        && r.value == NoContent && r.value.Code() == 204
        && db.recipes == old(db.recipes)[id := SoftDeleted(old(db.recipes)[id])]
        && db.users == old(db.users) && db.order == old(db.order)
    {
      var caller := userService.GetUserByEmail(callerEmail);
      if caller.Failure? {
        return Failure(caller.error);
      }
      var deleted := recipeService.DeleteRecipe(id, caller.value.id);
      if deleted.Failure? {
        return Failure(deleted.error);
      }
      r := Success(NoContent);
    }

    /** GET `/api/recipes/search/name`. */
    method SearchByName(keyword: string) returns (resp: seq<RecipeResponse>)
      requires Valid()
      ensures resp == ToResponses(Repository.SearchByName(db.Rows(), keyword), db.users)
    {
      var recipes := recipeService.SearchByName(keyword);
      resp := ToResponses(recipes, db.users);
    }

    /** GET `/api/recipes/search/ingredient`. */
    method SearchByIngredient(ingredient: string) returns (resp: seq<RecipeResponse>)
      requires Valid()
      ensures resp == ToResponses(Repository.SearchByIngredient(db.Rows(), ingredient, db.ingredientsText), db.users)
    {
      var recipes := recipeService.SearchByIngredient(ingredient);
      resp := ToResponses(recipes, db.users);
    }

    /** GET `/api/recipes/search/type`. */
    method SearchByType(recipeType: RecipeType) returns (resp: seq<RecipeResponse>)
      requires Valid()
      ensures resp == ToResponses(FindByRecipeType(db.Rows(), recipeType), db.users)
    {
      var recipes := recipeService.SearchByType(recipeType);
      resp := ToResponses(recipes, db.users);
    }
  }
}
