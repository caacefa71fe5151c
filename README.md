# Recipe backend — a verified model

This project models the core of a Spring recipe-sharing backend in Dafny.

- **Recipe table.** Each recipe is owned by a user and can be soft-deleted.
- **User table.** Each account has a unique email, a password hash, a role and a last-login time.
- **Repository queries.** The queries that filter the recipe table.
- **Services.** Two services guard both tables:
  - `RecipeService`: ownership checks, full-overwrite update, soft delete;
  - `UserService`: email uniqueness, password change and reset, soft delete, last-login stamping.
- **Controllers.** The REST controllers take the authenticated caller from email, to user, to id. They map requests to entities and entities to responses.
- **Exception handler.** It turns thrown messages into HTTP statuses.

## Files and form

The model takes the form of each source file.

| file | module(s) | form |
|---|---|---|
| `wrappers.dfy` | `Wrappers` | Java `null` is `Option`; a thrown exception is `Result.Failure` |
| `messages.dfy` | `Messages` | the exception messages the services throw, as constants |
| `text.dfy` | `Text` | ASCII `LOWER`, Java `contains`, and an SQL `LIKE` matcher (`%`, `_`, backslash escape) |
| `entity.dfy` | `Entity` | the `Recipe` and `User` records and the enums as datatypes |
| `security.dfy` | `Security` | the password encoder as a pair of functions, and what authentication accepts |
| `repository.dfy` | `Repository` | the queries as pure filters over the rows, in an order the model fixes |
| `persistence.dfy` | `Persistence` | `class Database`: the two tables as `map` fields and the row order as a `seq` field |
| `user_service.dfy`, `recipe_service.dfy` | `UserServices`, `RecipeServices` | classes whose methods update the `Database` in place (`modifies db`) |
| `recipe_controller.dfy`, `auth_controller.dfy` | `RecipeControllers`, `AuthControllers` | pure request/response mappings, plus classes whose endpoint methods sequence the service calls |
| `http.dfy` | `Http` | the HTTP statuses the endpoints and the handler answer with |
| `exception_handler.dfy` | `ExceptionHandler` | the message classification as pure functions |

How the pieces connect:

- Every state-changing method has an `ensures` that states:
  - each failure, with its message, and that the store is unchanged (`unchanged(db)`);
  - on success, the exact new contents of all three fields of the store.
- Every method keeps the store invariant `Database.Valid()`. It requires that:
  - users are keyed by id and no two share an email;
  - the order lists every recipe id exactly once;
  - every recipe carries its own id, has its NOT NULL columns, and is owned by a stored user.
- A failed endpoint call returns the error the Java method would throw. `ExceptionHandler.Handle` turns that error into the HTTP answer.

## Model

| member | source | states |
|---|---|---|
| Entity.NewRecipe | back/src/main/java/com/recipeapp/entity/RecipeEntity.java:37-68 | a fresh recipe: active, language EN, empty image list, user comments, external links and images, no id, no owner, no name, cooking time or type |
| Entity.AllRecipeTypes | back/src/main/java/com/recipeapp/entity/RecipeEntity.java:70-73 | exactly ten recipe types, pairwise distinct, every constant listed |
| Entity.AllLanguages | back/src/main/java/com/recipeapp/entity/RecipeEntity.java:75-77 | exactly two languages, EN and FR, distinct, every constant listed |
| Entity.UserRole.Name | back/src/main/java/com/recipeapp/controller/AuthController.java:39 | `role.name()` is "USER" exactly for USER and "ADMIN" exactly for ADMIN |
| Repository.Filter | back/src/main/java/com/recipeapp/repository/RecipeRepository.java:15-29 | a row is in the result iff it is in the table and satisfies the condition; every result row satisfies it; the result is a sub-multiset of the table, and without duplicates when the table has none |
| Repository.FilterCongruent | back/src/main/java/com/recipeapp/repository/RecipeRepository.java:15-29 | two conditions that agree on every row select the same rows, in the same order |
| Repository.FindByIsActiveTrue | back/src/main/java/com/recipeapp/repository/RecipeRepository.java:15 | exactly the active rows, a sub-multiset of the table |
| Repository.FindByUserId | back/src/main/java/com/recipeapp/repository/RecipeRepository.java:17 | exactly the rows owned by the user, active or not |
| Repository.FindByRecipeType | back/src/main/java/com/recipeapp/repository/RecipeRepository.java:19 | exactly the rows of the type, with no filter on the active flag |
| Repository.FindByLanguage | back/src/main/java/com/recipeapp/repository/RecipeRepository.java:21 | exactly the rows in the language, active or not |
| Repository.SearchByName | back/src/main/java/com/recipeapp/repository/RecipeRepository.java:23-25 | exactly the active rows whose lower-cased name matches the lower-cased pattern `%keyword%` |
| Repository.SearchByIngredient | back/src/main/java/com/recipeapp/repository/RecipeRepository.java:27-29 | exactly the active rows whose ingredient text, not lower-cased, matches the lower-cased pattern `%ingredient%` |
| Repository.SearchByNameIsSubstringMatch | back/src/main/java/com/recipeapp/repository/RecipeRepository.java:23-25 | for a keyword without LIKE wildcards, name search is exactly "active, and the lower-cased name contains the lower-cased keyword" |
| Repository.SearchByNameEmptyKeyword | back/src/main/java/com/recipeapp/repository/RecipeRepository.java:24 | the empty keyword gives the pattern `%%`; name search then equals the active listing |
| Repository.SearchByIngredientIsSubstringMatch | back/src/main/java/com/recipeapp/repository/RecipeRepository.java:27-29 | for a plain ingredient, the search is "active, and the stored text contains the lower-cased ingredient" |
| Repository.IngredientSearchMissesCapitalisedText | back/src/main/java/com/recipeapp/repository/RecipeRepository.java:28 | the search is case-sensitive on the stored text: a row whose ingredients read "Flour" is not found by "Flour" |
| Repository.SearchFindsTestRecipe | back/src/test/java/com/recipeapp/controller/RecipeControllerIntegrationTest.java:200-208 | the keyword "Test" finds the active recipe "Test Recipe" |
| Repository.SearchMissesNonexistent | back/src/test/java/com/recipeapp/controller/RecipeControllerIntegrationTest.java:210-217 | the keyword "Nonexistent" finds nothing in a table holding "Test Recipe" |
| Repository.FindByEmail | back/src/main/java/com/recipeapp/service/UserService.java:42 | with unique emails, some user iff the email is taken, and that user is the only one with the email |
| Text.LikeSubstring | back/src/main/java/com/recipeapp/repository/RecipeRepository.java:24 | for a pattern without wildcards, `s LIKE '%k%'` iff `s` contains `k` |
| Text.LowerPattern | back/src/main/java/com/recipeapp/repository/RecipeRepository.java:24 | `LOWER(CONCAT('%', k, '%'))` is `'%' + LOWER(k) + '%'` |
| Persistence.RowsAreTheTable | back/src/main/java/com/recipeapp/repository/RecipeRepository.java:15-29 | the ordered rows hold exactly the table's recipes |
| Persistence.RowsDistinct | back/src/main/java/com/recipeapp/repository/RecipeRepository.java:15-29 | the table's rows are pairwise distinct, because each carries its own primary key |
| Persistence.ListedOnce | back/src/main/java/com/recipeapp/repository/RecipeRepository.java:15-29 | every recipe a query returns occurs in its result exactly once |
| Repository.OccursOnce | back/src/main/java/com/recipeapp/repository/RecipeRepository.java:15-29 | in a result without duplicates, each returned row has multiplicity one |
| Persistence.SoftDeletedVisibility | back/src/main/java/com/recipeapp/service/RecipeService.java:28-93 | a soft-deleted recipe is absent from the active listing and from name and ingredient search, but type search and the owner's listing still return it |
| Persistence.Database.Rows | back/src/main/java/com/recipeapp/repository/RecipeRepository.java:15-29 | the rows are exactly the stored recipes, each owned by a stored user, and no row occurs twice |
| UserServices.NewUser | back/src/main/java/com/recipeapp/service/UserService.java:25-30 | the new account has the given email, hash and username, is active, has never logged in, and has the given role or USER when none is given |
| UserServices.AddUserKeepsEmailsUnique | back/src/main/java/com/recipeapp/service/UserService.java:21-31 | adding an account whose email is not taken keeps emails unique |
| UserServices.ChangeEmailKeepsEmailsUnique | back/src/main/java/com/recipeapp/service/UserService.java:56-60 | changing to one's own email, or to an untaken one, keeps emails unique |
| UserServices.UserService.CreateUser | back/src/main/java/com/recipeapp/service/UserService.java:19-32 | a taken email gives "Email already exists" and no change; otherwise exactly the new account is added and emails stay unique |
| UserServices.UserService.GetUserById | back/src/main/java/com/recipeapp/service/UserService.java:35-38 | success iff the id is stored, with that user; otherwise "User not found" |
| UserServices.UserService.GetUserByEmail | back/src/main/java/com/recipeapp/service/UserService.java:41-44 | success iff some user has the email, returning the stored user with it; otherwise "User not found" |
| UserServices.UserService.UpdateEmail | back/src/main/java/com/recipeapp/service/UserService.java:52-61 | an unknown id gives "User not found"; keeping one's own email always succeeds; a different taken email gives "Email already exists"; on success only that user's email changes |
| UserServices.UserService.UpdatePassword | back/src/main/java/com/recipeapp/service/UserService.java:64-73 | an unknown id gives "User not found" and a mismatching old password gives "Invalid old password", both with no change; otherwise only the hash changes, to the new password's encoding |
| UserServices.UserService.ResetPassword | back/src/main/java/com/recipeapp/service/UserService.java:76-80 | fails only for an unknown email; otherwise only that user's hash changes; with a sound encoder the new password then authenticates |
| UserServices.UserService.DeleteUser | back/src/main/java/com/recipeapp/service/UserService.java:83-87 | success iff the user exists; only their active flag is cleared and the row stays |
| UserServices.UserService.UpdateLastLogin | back/src/main/java/com/recipeapp/service/UserService.java:90-94 | success iff the user exists; only their last-login time changes, to `now` |
| RecipeServices.BindToOwner | back/src/main/java/com/recipeapp/service/RecipeService.java:23-25 | the saved recipe is owned by the user, active whatever flag it came with, carries the new id, and keeps every other field |
| RecipeServices.ApplyUpdate | back/src/main/java/com/recipeapp/service/RecipeService.java:53-62 | the result is the new data, null fields included, with id, owner, active flag, image list, user comments and images kept from the stored recipe |
| RecipeServices.SoftDeleted | back/src/main/java/com/recipeapp/service/RecipeService.java:76 | the recipe becomes inactive and nothing else changes |
| RecipeServices.UpdateOverwritesEarlierUpdate | back/src/main/java/com/recipeapp/service/RecipeService.java:53-62 | update is a full overwrite: after two updates nothing of the first remains |
| RecipeServices.SoftDeleteIdempotent | back/src/main/java/com/recipeapp/service/RecipeService.java:68-77 | deleting an already deleted recipe leaves it as it was |
| RecipeServices.RecipeService.CreateRecipe | back/src/main/java/com/recipeapp/service/RecipeService.java:19-26 | an unknown owner gives "User not found" and no change; success iff the owner exists and the required columns are set; the saved row is the bound recipe, appended to the order |
| RecipeServices.RecipeService.GetAllActiveRecipes | back/src/main/java/com/recipeapp/service/RecipeService.java:28-31 | exactly the active stored recipes |
| RecipeServices.RecipeService.GetRecipeById | back/src/main/java/com/recipeapp/service/RecipeService.java:33-37 | success iff the id is stored, active or not, with that recipe; otherwise "Recipe not found" |
| RecipeServices.RecipeService.GetRecipesByUser | back/src/main/java/com/recipeapp/service/RecipeService.java:39-42 | exactly the stored recipes of the owner, active or not |
| RecipeServices.RecipeService.UpdateRecipe | back/src/main/java/com/recipeapp/service/RecipeService.java:44-65 | a missing id gives "Recipe not found" and a non-owner "Unauthorized to update this recipe", and an owner's update that leaves a NOT NULL column null gives the NOT NULL violation, all with no change; on success only that row changes, to ApplyUpdate; no owner ever changes |
| RecipeServices.RecipeService.DeleteRecipe | back/src/main/java/com/recipeapp/service/RecipeService.java:67-78 | a missing id gives "Recipe not found" and a non-owner "Unauthorized to delete this recipe", both with no change; success iff the caller owns it, already deleted or not; only that row's flag is cleared |
| RecipeServices.RecipeService.SearchByName | back/src/main/java/com/recipeapp/service/RecipeService.java:80-83 | the repository's name search over the stored rows |
| RecipeServices.RecipeService.SearchByIngredient | back/src/main/java/com/recipeapp/service/RecipeService.java:85-88 | the repository's ingredient search over the stored rows |
| RecipeServices.RecipeService.SearchByType | back/src/main/java/com/recipeapp/service/RecipeService.java:90-93 | exactly the stored recipes of the type, active or not |
| RecipeControllers.ToEntity | back/src/main/java/com/recipeapp/controller/RecipeController.java:97-110 | the entity carries exactly the request's ten fields; id, owner, active flag, image list, user comments and images keep a fresh recipe's defaults |
| RecipeControllers.ToResponse | back/src/main/java/com/recipeapp/controller/RecipeController.java:112-127 | the response carries the recipe's id and ten client fields, and names the creator by the owner's username |
| RecipeControllers.ToResponses | back/src/main/java/com/recipeapp/controller/RecipeController.java:27 | one response per row, in order, each with that row's owner |
| RecipeControllers.CreatedRecipeComplete | back/src/main/java/com/recipeapp/entity/RecipeEntity.java:20-65 | a created recipe has every NOT NULL column iff the request gives name, cooking time, type and language |
| RecipeControllers.UpdatedRecipeComplete | back/src/main/java/com/recipeapp/service/RecipeService.java:53-64 | an updated recipe has every NOT NULL column iff the request gives name, cooking time, type and language |
| RecipeControllers.CreateRoundTrip | back/src/main/java/com/recipeapp/controller/RecipeController.java:50-58 | creating from a request and answering gives back the request's ten fields, the new id and the caller's username |
| RecipeControllers.UpdateRoundTrip | back/src/main/java/com/recipeapp/controller/RecipeController.java:60-68 | updating from a request and answering gives back the request's ten fields and the stored id |
| RecipeControllers.RecipeController.GetAllPublicRecipes | back/src/main/java/com/recipeapp/controller/RecipeController.java:24-28 | the responses of exactly the active recipes |
| RecipeControllers.RecipeController.GetAllRecipes | back/src/main/java/com/recipeapp/controller/RecipeController.java:30-34 | the same list as the public endpoint |
| RecipeControllers.RecipeController.GetRecipeById | back/src/main/java/com/recipeapp/controller/RecipeController.java:36-40 | success iff the id is stored, with its response; otherwise "Recipe not found" |
| RecipeControllers.RecipeController.GetMyRecipes | back/src/main/java/com/recipeapp/controller/RecipeController.java:42-48 | an unknown caller gives "User not found"; otherwise the responses of exactly the caller's recipes, each naming the caller, and empty when the caller owns none |
| RecipeControllers.RecipeController.CreateRecipe | back/src/main/java/com/recipeapp/controller/RecipeController.java:50-58 | an unknown caller gives "User not found" before any recipe is touched; success iff the caller exists and the request is complete; the response echoes the request and names the caller |
| RecipeControllers.RecipeController.UpdateRecipe | back/src/main/java/com/recipeapp/controller/RecipeController.java:60-68 | the caller is resolved first; then a missing recipe gives "Recipe not found", a non-owner "Unauthorized to update this recipe" and an owner's incomplete request the NOT NULL violation, each with no change; success writes ApplyUpdate and answers the request's fields with the caller's name |
| RecipeControllers.RecipeController.DeleteRecipe | back/src/main/java/com/recipeapp/controller/RecipeController.java:70-77 | the caller is resolved first; success iff the caller owns the recipe; the answer is 204 with no body and only the flag is cleared |
| RecipeControllers.RecipeController.SearchByName | back/src/main/java/com/recipeapp/controller/RecipeController.java:79-83 | the responses of the name search |
| RecipeControllers.RecipeController.SearchByIngredient | back/src/main/java/com/recipeapp/controller/RecipeController.java:85-89 | the responses of the ingredient search |
| RecipeControllers.RecipeController.SearchByType | back/src/main/java/com/recipeapp/controller/RecipeController.java:91-95 | the responses of the type search |
| AuthControllers.ResponseFor | back/src/main/java/com/recipeapp/controller/AuthController.java:39 | the answer carries the account's id, email, username and role name, and the token |
| AuthControllers.AuthController.Register | back/src/main/java/com/recipeapp/controller/AuthController.java:27-40 | a taken email fails and adds nobody; otherwise one account with role USER is added and the answer carries role "USER" |
| AuthControllers.AuthController.Login | back/src/main/java/com/recipeapp/controller/AuthController.java:42-55 | bad credentials give the authentication error and no change; otherwise only that user's last-login time is stamped with `now` and the answer describes that user |
| AuthControllers.AuthController.ResetPassword | back/src/main/java/com/recipeapp/controller/AuthController.java:57-61 | fails only for an unknown email, with no change; otherwise only that user's hash changes, to the new password's encoding, the recipes and order are kept, and the answer is "Password reset successfully"; with a sound encoder the new password then authenticates |
| ExceptionHandler.HandleRuntimeException | back/src/main/java/com/recipeapp/exception/GlobalExceptionHandler.java:16-34 | 409 iff the message contains "Email already exists"; otherwise 404 iff it contains "User not found"; otherwise 500; the body has exactly the keys "error" and "message", and "message" echoes the text |
| ExceptionHandler.HandleAuthenticationException | back/src/main/java/com/recipeapp/exception/GlobalExceptionHandler.java:36-42 | always 401 with the fixed body: error "Authentication failed", message "Invalid credentials or user not found" |
| ExceptionHandler.Handle | back/src/main/java/com/recipeapp/exception/GlobalExceptionHandler.java:16-42 | authentication errors give exactly the fixed 401 answer; runtime errors give the message classification, never 401, and their body echoes the message |
| ExceptionHandler.EmailCheckTakesPrecedence | back/src/main/java/com/recipeapp/exception/GlobalExceptionHandler.java:20-29 | a message naming both a taken email and a missing user gives 409 |
| ExceptionHandler.ConflictAndNotFoundMessages | back/src/main/java/com/recipeapp/exception/GlobalExceptionHandler.java:20-29 | "Email already exists" gives 409 and "User not found" gives 404 |
| ExceptionHandler.RecipeNotFoundIsServerError | back/src/main/java/com/recipeapp/exception/GlobalExceptionHandler.java:31-33 | "Recipe not found" gives 500 |
| ExceptionHandler.NotOwnerIsServerError | back/src/main/java/com/recipeapp/exception/GlobalExceptionHandler.java:31-33 | both not-owner messages give 500 |
| ExceptionHandler.PasswordAndConstraintErrorsAreServerErrors | back/src/main/java/com/recipeapp/exception/GlobalExceptionHandler.java:31-33 | "Invalid old password" and the NOT NULL violation give 500 |

## Left out

- Password hashing (bcrypt with a random salt) is an injected pair of functions, `encode` and `matches`. The only property assumed of it is `Sound()`: a password matches its own encoding. Results that need it take it as a hypothesis.
- JWT issuing is an injected function of the account's email. The token's format, signature and expiry are not modelled.
- Spring Security's filter chain is not modelled. Neither are the 401 answers for requests without a token.
- `AuthenticationManager` is modelled as `Security.Authenticates`: some user has the email and the password matches their stored hash. `UserDetailsService` is not part of this model, so no account-enabled or role check is made at login.
- `Entity.User` has the fields that `UserService` sets and reads:
  - email, password hash, username, role and active flag (back/src/main/java/com/recipeapp/service/UserService.java:26-30, 86);
  - last login (back/src/main/java/com/recipeapp/service/UserService.java:93);
  - the id `AuthController` reads (back/src/main/java/com/recipeapp/controller/AuthController.java:39).
  Columns of the user table that the core never touches are left out.
- `RecipeControllers.RecipeResponse` has the twelve fields that `toResponse` passes (back/src/main/java/com/recipeapp/controller/RecipeController.java:113-126). Its JSON serialisation is left out.
- Persistence is not modelled:
  - UUID generation is a fresh-id parameter the caller supplies. The id a client sends in a body is ignored, as it is by the controller.
  - `@Transactional`, lazy loading and concurrency are left out; the model is sequential.
  - A NOT NULL column written as null fails the save with the stand-in message `NotNullViolation`, and the store is unchanged.
- The jsonb-to-text cast used by ingredient search is an abstract function of the ingredient list, fixed per store.
- Ingredient JSON values are flat, with no nested objects or arrays, and JSON numbers are integers. The core only copies these values through and renders them abstractly.
- `LOWER` is ASCII-only. No Unicode case mapping is modelled.
- The service methods pass the clock reading in as `now`.
- The `Image` entity and its lifecycle hooks are left out. A recipe keeps only the ids of its images.
- `UserService.getAllUsers` is a plain pass-through of the user table and is not modelled.
- Java `null` strings, such as a null email or a null exception message, are not modelled.
- Ingredient search compares only a lower-cased pattern against the jsonb text as stored (back/src/main/java/com/recipeapp/repository/RecipeRepository.java:28). So, unlike name search, it does not match capitalised stored text, and the model keeps that behaviour.
- Repository.SearchByName and Repository.SearchByIngredient: the keyword is not escaped. A `%` or `_` in the keyword acts as a wildcard, and the model keeps that. The substring lemmas are stated only for keywords without these characters.
- Row order: the repository queries have no ORDER BY, so the database promises no order. The model fixes one: the `order` field, with new rows appended and updated rows kept in place. Listings, searches and their responses therefore match the source only up to the order of their rows. Membership and multiplicity are what the source determines: the rows are distinct (`Persistence.Database.Rows`), and each listed row appears once (`Persistence.ListedOnce`).
- RecipeServices.RecipeService.CreateRecipe: does not model `save` merging a recipe that arrives with the id of a stored row. Such a merge would overwrite that row and give it the new owner. The model always inserts a new row under the generated id, whatever id the recipe carries. The only caller, `RecipeController.createRecipe`, passes a recipe built by `toEntity`, which has no id (`RecipeControllers.ToEntity` ensures it).
