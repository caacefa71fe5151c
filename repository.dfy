/** The repository queries, as filters over the table's rows in the store's
    natural order, and the user-table lookups the services use. */
module Repository {
  import opened Wrappers
  import opened Text
  import opened Entity

  /** No row occurs twice. */
  predicate NoDuplicates<T(==)>(rows: seq<T>)
  {
    forall i, j :: 0 <= i < j < |rows| ==> rows[i] != rows[j]
  }

  /** In a sequence without duplicates, each member occurs exactly once. */
  lemma {:induction false} OccursOnce<T>(rows: seq<T>, x: T)
    requires NoDuplicates(rows) && x in rows
    ensures multiset(rows)[x] == 1
  {
    assert rows == [rows[0]] + rows[1..];
    if rows[0] == x {
      assert x !in rows[1..];
    } else {
      OccursOnce(rows[1..], x);
    }
  }

  /** The rows that satisfy `keep`, in their original order. */
  function Filter<T(!new)>(rows: seq<T>, keep: T -> bool): (r: seq<T>)
    ensures forall x :: x in r <==> x in rows && keep(x)
    ensures forall i :: 0 <= i < |r| ==> keep(r[i])
    ensures multiset(r) <= multiset(rows)
    ensures NoDuplicates(rows) ==> NoDuplicates(r)
  {
    if rows == [] then []
    else
      var rest := Filter(rows[1..], keep);
      assert rows == [rows[0]] + rows[1..];
      if keep(rows[0]) then [rows[0]] + rest else rest
  }

  /** Two conditions that agree on every row select the same rows. */
  lemma {:induction false} FilterCongruent<T(!new)>(rows: seq<T>, p: T -> bool, q: T -> bool)
    requires forall x :: x in rows ==> p(x) == q(x)
    ensures Filter(rows, p) == Filter(rows, q)
  {
    if rows != [] {
      FilterCongruent(rows[1..], p, q);
    }
  }

  /** `LOWER(r.name) LIKE LOWER(CONCAT('%', :keyword, '%'))`; a null name
      matches nothing. */
  predicate NameMatches(r: Recipe, keyword: string)
  {
    r.name.Some? && Like(Lower(r.name.value), Lower("%" + keyword + "%"))
  }

  /** `CAST(r.ingredientsList AS string) LIKE LOWER(CONCAT('%', :ingredient, '%'))`:
      only the pattern is lower-cased. `render` is the database's text form of
      the jsonb column; a null list matches nothing. */
  predicate IngredientsMatch(r: Recipe, ingredient: string, render: seq<JsonObject> -> string)
  {
    r.ingredientsList.Some? && Like(render(r.ingredientsList.value), Lower("%" + ingredient + "%"))
  }

  /** `findByIsActiveTrue`. */
  function FindByIsActiveTrue(rows: seq<Recipe>): (r: seq<Recipe>)
    ensures forall x :: x in r <==> x in rows && x.isActive
    ensures multiset(r) <= multiset(rows)
  {
    Filter(rows, (x: Recipe) => x.isActive)
  }

  /** `findByUserId`: the owner's rows, active or not. */
  function FindByUserId(rows: seq<Recipe>, userId: string): (r: seq<Recipe>)
    ensures forall x :: x in r <==> x in rows && x.userId == Some(userId)
    ensures multiset(r) <= multiset(rows)
  {
    Filter(rows, (x: Recipe) => x.userId == Some(userId))
  }

  /** `findByRecipeType`: every row of that type, active or not. */
  function FindByRecipeType(rows: seq<Recipe>, recipeType: RecipeType): (r: seq<Recipe>)
    ensures forall x :: x in r <==> x in rows && x.recipeType == Some(recipeType)
    ensures multiset(r) <= multiset(rows)
  {
    Filter(rows, (x: Recipe) => x.recipeType == Some(recipeType))
  }

  /** `findByLanguage`: every row in that language, active or not. */
  function FindByLanguage(rows: seq<Recipe>, language: Language): (r: seq<Recipe>)
    ensures forall x :: x in r <==> x in rows && x.language == Some(language)
    ensures multiset(r) <= multiset(rows)
  {
    Filter(rows, (x: Recipe) => x.language == Some(language))
  }

  /** `searchByName`: active rows whose name matches the pattern. */
  function SearchByName(rows: seq<Recipe>, keyword: string): (r: seq<Recipe>)
    ensures forall x :: x in r <==> x in rows && x.isActive && NameMatches(x, keyword)
    ensures multiset(r) <= multiset(rows)
  {
    Filter(rows, (x: Recipe) => x.isActive && NameMatches(x, keyword))
  }

  /** `searchByIngredient`: active rows whose ingredient text matches the pattern. */
  function SearchByIngredient(rows: seq<Recipe>, ingredient: string, render: seq<JsonObject> -> string): (r: seq<Recipe>)
    ensures forall x :: x in r <==> x in rows && x.isActive && IngredientsMatch(x, ingredient, render)
    ensures multiset(r) <= multiset(rows)
  {
    Filter(rows, (x: Recipe) => x.isActive && IngredientsMatch(x, ingredient, render))
  }

  /** For a keyword without `%`, `_` or backslash, name search is a
      case-insensitive substring match on the active rows. */
  lemma SearchByNameIsSubstringMatch(rows: seq<Recipe>, keyword: string)
    requires Plain(keyword)
    ensures forall x :: x in SearchByName(rows, keyword) <==>
      x in rows && x.isActive && x.name.Some? && Contains(Lower(x.name.value), Lower(keyword))
  {
    LowerPattern(keyword);
    LowerKeepsPlain(keyword);
    forall x | x in rows && x.name.Some?
      ensures NameMatches(x, keyword) <==> Contains(Lower(x.name.value), Lower(keyword))
    {
      LikeSubstring(Lower(x.name.value), Lower(keyword));
    }
  }

  /** The empty keyword gives the pattern `%%`, which every name matches: name
      search then returns exactly the active rows. */
  lemma SearchByNameEmptyKeyword(rows: seq<Recipe>)
    requires forall x :: x in rows ==> x.name.Some?
    ensures SearchByName(rows, "") == FindByIsActiveTrue(rows)
  {
    assert Lower("%" + "" + "%") == "%%";
    forall x | x in rows
      ensures (x.isActive && NameMatches(x, "")) == x.isActive
    {
      LikePercentMatchesAll(Lower(x.name.value));
      assert "%%"[1..] == "%";
    }
    FilterCongruent(rows, (x: Recipe) => x.isActive && NameMatches(x, ""), (x: Recipe) => x.isActive);
  }

  /** For an ingredient without `%`, `_` or backslash, ingredient search is a
      substring match of the lower-cased ingredient in the stored text, which
      is not itself lower-cased. */
  lemma SearchByIngredientIsSubstringMatch(rows: seq<Recipe>, ingredient: string, render: seq<JsonObject> -> string)
    requires Plain(ingredient)
    ensures forall x :: x in SearchByIngredient(rows, ingredient, render) <==>
      x in rows && x.isActive && x.ingredientsList.Some? && Contains(render(x.ingredientsList.value), Lower(ingredient))
  {
    LowerPattern(ingredient);
    LowerKeepsPlain(ingredient);
    forall x | x in rows && x.ingredientsList.Some?
      ensures IngredientsMatch(x, ingredient, render) <==> Contains(render(x.ingredientsList.value), Lower(ingredient))
    {
      LikeSubstring(render(x.ingredientsList.value), Lower(ingredient));
    }
  }

  /** Ingredient search is case-sensitive on the stored text: a row whose
      ingredients render as "Flour" is not found by the ingredient "Flour". */
  lemma IngredientSearchMissesCapitalisedText(x: Recipe, render: seq<JsonObject> -> string)
    requires x.isActive && x.ingredientsList.Some? && render(x.ingredientsList.value) == "Flour"
    ensures SearchByIngredient([x], "Flour", render) == []
  {
    var k := "Flour";
    assert Plain(k);
    SearchByIngredientIsSubstringMatch([x], k, render);
    assert Lower(k)[0] == 'f';
    NotContainsWithoutFirstChar("Flour", Lower(k));
  }

  /** Name search finds "Test Recipe" by the keyword "Test". */
  lemma SearchFindsTestRecipe(x: Recipe)
    requires x.isActive && x.name == Some("Test Recipe")
    ensures SearchByName([x], "Test") == [x]
  {
    var k := "Test";
    assert Plain(k);
    SearchByNameIsSubstringMatch([x], k);
    assert k + " Recipe" == "Test Recipe";
    LowerConcat(k, " Recipe");
    ContainsAtStart(Lower("Test Recipe"), Lower(k));
    var r := SearchByName([x], k);
    assert x in r;
    assert multiset(r)[x] >= 1 && |multiset(r)| <= 1;
  }

  /** Name search finds nothing for "Nonexistent" in a table holding only
      "Test Recipe": the lower-cased name has no letter n. */
  lemma SearchMissesNonexistent(x: Recipe)
    requires x.name == Some("Test Recipe")
    ensures SearchByName([x], "Nonexistent") == []
  {
    var k := "Nonexistent";
    assert Plain(k);
    SearchByNameIsSubstringMatch([x], k);
    assert Lower(k)[0] == 'n';
    assert Lower("Test Recipe") == "test recipe";
    NotContainsWithoutFirstChar("test recipe", Lower(k));
  }

  // ---------------------------------------------------------------- users

  /** Every user row is stored under its own id. */
  ghost predicate KeyedById(users: map<string, User>)
  {
    forall id :: id in users ==> users[id].id == id
  }

  /** No two users share an email. */
  ghost predicate EmailsUnique(users: map<string, User>)
  {
    forall a, b :: a in users && b in users && users[a].email == users[b].email ==> a == b
  }

  /** `existsByEmail`. */
  predicate ExistsByEmail(users: map<string, User>, email: string)
  {
    exists id :: id in users && users[id].email == email
  }

  /** `findByEmail`: the one user with that email, if any. */
  function FindByEmail(users: map<string, User>, email: string): (r: Option<User>)
    requires EmailsUnique(users)
    ensures r.Some? <==> ExistsByEmail(users, email)
    ensures r.Some? ==> r.value.email == email && exists id :: id in users && users[id] == r.value
    ensures r.Some? ==> forall id :: id in users && users[id].email == email ==> users[id] == r.value
  {
    if ExistsByEmail(users, email) then
      var id :| id in users && users[id].email == email;
      Some(users[id])
    else
      None
  }
}
