/** The recipe schema (src/models/recipe.ts) as validator predicates: the ingredient and
    direction sub-schemas, and the recipe document with its optional text fields and its
    two arrays. Request objects are maps from key to string; a sub-document keeps only
    the keys its schema declares. */
module RecipeModel {
  import opened Wrappers
  import opened Schema

  /** An ingredient sub-document: `name` and `quantity` required, `unit` optional. */
  datatype Ingredient = Ingredient(name: Option<string>, quantity: Option<string>, unit: Option<string>)

  /** A direction sub-document: `title` and `description` both required. */
  datatype Direction = Direction(title: Option<string>, description: Option<string>)

  /** The ingredient a request object becomes: only the three declared keys are kept. */
  function IngredientOf(obj: map<string, string>): (i: Ingredient)
    ensures i.name.Some? <==> "name" in obj
    ensures i.quantity.Some? <==> "quantity" in obj
    ensures i.unit.Some? <==> "unit" in obj
  {
    Ingredient(Field(obj, "name"), Field(obj, "quantity"), Field(obj, "unit"))
  }

  /** The direction a request object becomes: only `title` and `description` are kept. */
  function DirectionOf(obj: map<string, string>): (d: Direction)
    ensures d.title.Some? <==> "title" in obj
    ensures d.description.Some? <==> "description" in obj
  {
    Direction(Field(obj, "title"), Field(obj, "description"))
  }

  predicate ValidIngredient(i: Ingredient) {
    Present(i.name) && Present(i.quantity)
  }

  predicate ValidDirection(d: Direction) {
    Present(d.title) && Present(d.description)
  }

  /** Every element of an `ingredients` array passes the sub-schema. */
  predicate ValidIngredients(list: seq<Ingredient>) {
    forall k :: 0 <= k < |list| ==> ValidIngredient(list[k])
  }

  /** Every element of a `directions` array passes the sub-schema. */
  predicate ValidDirections(list: seq<Direction>) {
    forall k :: 0 <= k < |list| ==> ValidDirection(list[k])
  }

  /** A request object is a valid ingredient exactly when it has a non-empty `name` and a
      non-empty `quantity`; `unit` and any other key play no part. */
  lemma IngredientRequirements(obj: map<string, string>)
    ensures ValidIngredient(IngredientOf(obj))
      <==> "name" in obj && obj["name"] != "" && "quantity" in obj && obj["quantity"] != ""
  {
  }

  /** A request object is a valid direction exactly when it has a non-empty `title` and a
      non-empty `description`. */
  lemma DirectionRequirements(obj: map<string, string>)
    ensures ValidDirection(DirectionOf(obj))
      <==> "title" in obj && obj["title"] != "" && "description" in obj && obj["description"] != ""
  {
  }

  /** The key the schema declares is `title`: a direction spelt with `tittle`, as the
      TypeScript interface has it, fails validation. */
  lemma MisspeltTitleRejected(t: string, description: string)
    ensures !ValidDirection(DirectionOf(map["tittle" := t, "description" := description]))
  {
    var obj := map["tittle" := t, "description" := description];
    assert "title" !in obj;
  }

  /** A recipe document. `dishId` is the poster the recipe belongs to; the text fields and
      `userId` are optional; the two arrays are always there, empty when not given. */
  datatype RecipeRecord = RecipeRecord(
    id: string,
    dishId: Option<string>,
    img: Option<string>,
    description: Option<string>,
    name: Option<string>,
    time: Option<string>,
    cal: Option<string>,
    dishType: Option<string>,
    userId: Option<string>,
    ingredients: seq<Ingredient>,
    directions: seq<Direction>)

  /** The document passes the recipe schema: `ingredients` and `directions` are required
      arrays (an empty array satisfies `required`), and each element passes its
      sub-schema; the optional text fields take any value. */
  predicate ValidRecipe(r: RecipeRecord) {
    ValidIngredients(r.ingredients) && ValidDirections(r.directions)
  }

  /** A new recipe built from the two arrays of a request; an absent array defaults to
      the empty one. */
  function NewRecipe(id: string, dishId: string, ingredients: Option<seq<Ingredient>>,
                     directions: Option<seq<Direction>>): (r: RecipeRecord)
    ensures r.id == id && r.dishId == Some(dishId)
    ensures r.ingredients == ingredients.GetOr([]) && r.directions == directions.GetOr([])
    ensures r.img.None? && r.description.None? && r.name.None? && r.time.None?
    ensures r.cal.None? && r.dishType.None? && r.userId.None?
  {
    RecipeRecord(id, Some(dishId), None, None, None, None, None, None, None,
                 ingredients.GetOr([]), directions.GetOr([]))
  }

  /** The recipe `create` stores as written: `dishId` is not a path of the recipe schema, so
      strict mode drops it and the stored recipe belongs to no dish. */
  function NewRecipeAsWritten(id: string, dishId: string, ingredients: Option<seq<Ingredient>>,
                              directions: Option<seq<Direction>>): (r: RecipeRecord)
    ensures r.dishId.None?
    ensures r.id == id && r.ingredients == ingredients.GetOr([]) && r.directions == directions.GetOr([])
  {
    NewRecipe(id, dishId, ingredients, directions).(dishId := None)
  }

  /** A new recipe is valid exactly when every given ingredient and direction is; the
      optional text fields never cause a failure. */
  lemma NewRecipeValidity(id: string, dishId: string, ingredients: Option<seq<Ingredient>>,
                          directions: Option<seq<Direction>>)
    ensures ValidRecipe(NewRecipe(id, dishId, ingredients, directions))
      <==> ValidIngredients(ingredients.GetOr([])) && ValidDirections(directions.GetOr([]))
  {
  }

  /** Optional text fields never make a recipe invalid. */
  lemma OptionalFieldsFree(r: RecipeRecord, img: Option<string>, description: Option<string>, name: Option<string>,
                           time: Option<string>, cal: Option<string>, dishType: Option<string>, userId: Option<string>)
    ensures ValidRecipe(r) == ValidRecipe(r.(img := img, description := description, name := name, time := time,
                                              cal := cal, dishType := dishType, userId := userId))
  {
  }
}
