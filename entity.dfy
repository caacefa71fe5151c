/** The persisted entities: recipes and their owners. */
module Entity {
  import opened Wrappers

  datatype RecipeType =
    APPETIZER | STARTER | MAIN | DESSERT | DRINK | OTHER | DRESSING_SAUCE | SPREAD | BREAD | DOUGH

  datatype Language = EN | FR

  datatype UserRole = USER | ADMIN
  {
    /** Java's `role.name()`, as sent in authentication responses. */
    function Name(): (n: string)
      ensures this == USER <==> n == "USER"
      ensures this == ADMIN <==> n == "ADMIN"
    {
      match this
      case USER => "USER"
      case ADMIN => "ADMIN"
    }
  }

  /** The recipe types, each exactly once. */
  function AllRecipeTypes(): (all: seq<RecipeType>)
    ensures |all| == 10
    ensures forall t: RecipeType :: t in all
    ensures forall i, j :: 0 <= i < j < |all| ==> all[i] != all[j]
  {
    var all := [APPETIZER, STARTER, MAIN, DESSERT, DRINK, OTHER, DRESSING_SAUCE, SPREAD, BREAD, DOUGH];
    EveryRecipeTypeListed(all);
    all
  }

  lemma EveryRecipeTypeListed(all: seq<RecipeType>)
    requires all == [APPETIZER, STARTER, MAIN, DESSERT, DRINK, OTHER, DRESSING_SAUCE, SPREAD, BREAD, DOUGH]
    ensures forall t: RecipeType :: t in all
  {
    forall t: RecipeType ensures t in all {
      match t {
        case APPETIZER => assert all[0] == t;
        case STARTER => assert all[1] == t;
        case MAIN => assert all[2] == t;
        case DESSERT => assert all[3] == t;
        case DRINK => assert all[4] == t;
        case OTHER => assert all[5] == t;
        case DRESSING_SAUCE => assert all[6] == t;
        case SPREAD => assert all[7] == t;
        case BREAD => assert all[8] == t;
        case DOUGH => assert all[9] == t;
      }
    }
  }

  /** The languages, each exactly once. */
  function AllLanguages(): (all: seq<Language>)
    ensures |all| == 2 && all[0] != all[1]
    ensures forall l: Language :: l in all
  {
    var all := [EN, FR];
    EveryLanguageListed(all);
    all
  }

  lemma EveryLanguageListed(all: seq<Language>)
    requires all == [EN, FR]
    ensures forall l: Language :: l in all
  {
    forall l: Language ensures l in all {
      if l == EN { assert all[0] == l; } else { assert all[1] == l; }
    }
  }

  /** A scalar value inside a JSON object (ingredients and user comments are
      lists of such objects). */
  datatype Json = JNull | JBool(b: bool) | JNumber(n: int) | JString(s: string)

  type JsonObject = map<string, Json>

  /** A point in time (`LocalDateTime`). */
  type Timestamp = int

  /** The `Recipe` entity. Every reference-typed Java field that the code can
      set to null is an `Option`; `userId` is the `user_id` join column, the id
      of the owning `User`; `images` holds the ids of the owned `Image` rows. */
  datatype Recipe = Recipe(
    id: Option<string>,
    name: Option<string>,
    ingredientsList: Option<seq<JsonObject>>,
    temperature: Option<int>,
    cookingTime: Option<int>,
    instructions: Option<string>,
    imageList: seq<string>,
    recipeType: Option<RecipeType>,
    creatorRating: Option<int>,
    creatorComment: Option<string>,
    userComments: seq<JsonObject>,
    externalLinks: Option<seq<string>>,
    isActive: bool,
    userId: Option<string>,
    language: Option<Language>,
    images: seq<string>)

  /** `new Recipe()`: no id, no owner, active, English, and empty image list,
      user comments, external links and images; every other field null. */
  function NewRecipe(): (r: Recipe)
    ensures r.isActive && r.language == Some(EN)
    ensures r.imageList == [] && r.userComments == [] && r.externalLinks == Some([]) && r.images == []
    ensures r.id.None? && r.userId.None?
    ensures r.name.None? && r.cookingTime.None? && r.recipeType.None?
  {
    Recipe(None, None, None, None, None, None, [], None, None, None, [], Some([]), true, None, Some(EN), [])
  }

  /** The columns declared `nullable = false` (the owner included); `isActive`
      cannot be null here. Temperature, rating, comment, instructions,
      ingredients and links are optional. */
  predicate RequiredColumnsSet(r: Recipe)
  {
    r.name.Some? && r.cookingTime.Some? && r.recipeType.Some? && r.language.Some? && r.userId.Some?
  }

  /** A user account. */
  datatype User = User(
    id: string,
    email: string,
    passwordHash: string,
    username: string,
    role: UserRole,
    isActive: bool,
    lastLoginAt: Option<Timestamp>)
}
