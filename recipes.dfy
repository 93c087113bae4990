/** The recipe handlers of src/controllers/recipe.ts over a recipe table and a poster
    table: `addRecipe`, `updateRecipe`, `findRecipe`, `getRecipeByDishId` and
    `findAllRecipe`. Tables are sequences in storage order, so `findOne` is "the first
    record that matches". */
module Recipes {
  import opened Wrappers
  import opened Seqs
  import opened RecipeModel

  const NoPosterMessage := "No poster in this Id. "
  const AddedMessage := "Add successfully. "
  const NoRecipeToUpdateMessage := "No recipe found with this id."
  const UpdatedMessage := "Updated successfully"
  const NoRecipeMessage := "No recipe in this Id. "
  const NoDishPosterMessage := "No poster in this id. "
  const NoDishRecipeMessage := "No recipe in this id. "

  /** A poster (a dish): its id and its optional text fields. */
  datatype PosterRecord = PosterRecord(
    id: string,
    img: Option<string>,
    description: Option<string>,
    name: Option<string>,
    time: Option<string>,
    cal: Option<string>,
    dishType: Option<string>)

  /** A field value of a stored document, as the JSON reply shows it. */
  datatype Value = Text(text: string) | IngredientList(ingredients: seq<Ingredient>) | DirectionList(directions: seq<Direction>)

  /** A stored document's own fields (`_doc`): the keys it has and their values. */
  type Doc = map<string, Value>

  /** How a handler ends: `{ message }` with a status, a record or records with a status,
      the merged dish with a status, or a validation error handed to `next`. */
  datatype Response =
    | Answer(status: int, message: string)
    | OneRecipe(status: int, message: string, recipe: RecipeRecord)
    | AllRecipes(status: int, recipes: seq<RecipeRecord>)
    | Dish(status: int, doc: Doc)
    | Forward(name: string)

  /** `d` with the key `key` set to the text `v` when `v` is present; unchanged otherwise. */
  function With(d: Doc, key: string, v: Option<string>): (r: Doc)
    ensures v.None? ==> r == d
    ensures v.Some? ==> key in r && r[key] == Text(v.value)
    ensures forall k :: k != key ==> (k in r <==> k in d)
    ensures forall k :: k != key && k in d ==> r[k] == d[k]
  {
    if v.Some? then d[key := Text(v.value)] else d
  }

  /** The fields of a stored recipe. */
  function RecipeDoc(r: RecipeRecord): (d: Doc)
    ensures "_id" in d && d["_id"] == Text(r.id)
    ensures "ingredients" in d && d["ingredients"] == IngredientList(r.ingredients)
    ensures "directions" in d && d["directions"] == DirectionList(r.directions)
    ensures r.name.Some? ==> "name" in d && d["name"] == Text(r.name.value)
  {
    var d1 := With(With(With(With(map[], "dishId", r.dishId), "img", r.img), "description", r.description), "time", r.time);
    var d2 := With(With(With(With(d1, "cal", r.cal), "dishType", r.dishType), "userId", r.userId), "name", r.name);
    d2["_id" := Text(r.id)]["ingredients" := IngredientList(r.ingredients)]["directions" := DirectionList(r.directions)]
  }

  /** The fields of a stored poster. */
  function PosterDoc(p: PosterRecord): (d: Doc)
    ensures "_id" in d && d["_id"] == Text(p.id)
    ensures "ingredients" !in d && "directions" !in d
    ensures p.name.Some? <==> "name" in d
    ensures p.name.Some? ==> d["name"] == Text(p.name.value)
  {
    var d1 := With(With(With(map[], "img", p.img), "description", p.description), "time", p.time);
    var d2 := With(With(With(d1, "cal", p.cal), "dishType", p.dishType), "name", p.name);
    d2["_id" := Text(p.id)]
  }

  /** `{ ...recipe._doc, ...dish._doc }`: every key of either document, with the poster's
      value where both have the key. */
  function Merge(recipe: Doc, poster: Doc): (m: Doc)
    ensures m.Keys == recipe.Keys + poster.Keys
    ensures forall k :: k in poster ==> m[k] == poster[k]
    ensures forall k :: k in recipe && k !in poster ==> m[k] == recipe[k]
  {
    recipe + poster
  }

  /** `RecipeModel.findById(id)`: the index of the recipe with that id. */
  function FindRecipeIndex(recipes: seq<RecipeRecord>, id: string): (r: Option<nat>)
    ensures r.Some? ==> r.value < |recipes| && recipes[r.value].id == id
    ensures r.Some? ==> forall j :: 0 <= j < r.value ==> recipes[j].id != id
    ensures r.None? <==> forall j :: 0 <= j < |recipes| ==> recipes[j].id != id
  {
    FindFirst((r: RecipeRecord) => r.id == id, recipes, 0)
  }

  /** `findOne({ dishId })`: the index of the first recipe whose `dishId` is `dishId`. */
  function FindByDish(recipes: seq<RecipeRecord>, dishId: string): (r: Option<nat>)
    ensures r.Some? ==> r.value < |recipes| && recipes[r.value].dishId == Some(dishId)
    ensures r.Some? ==> forall j :: 0 <= j < r.value ==> recipes[j].dishId != Some(dishId)
    ensures r.None? <==> forall j :: 0 <= j < |recipes| ==> recipes[j].dishId != Some(dishId)
  {
    FindFirst((r: RecipeRecord) => r.dishId == Some(dishId), recipes, 0)
  }

  /** `PosterService.findPoster(id)`: the index of the poster with that id. */
  function FindPoster(posters: seq<PosterRecord>, id: string): (r: Option<nat>)
    ensures r.Some? ==> r.value < |posters| && posters[r.value].id == id
    ensures r.None? <==> forall j :: 0 <= j < |posters| ==> posters[j].id != id
  {
    FindFirst((p: PosterRecord) => p.id == id, posters, 0)
  }

  /** `addRecipe`: refused when the poster does not exist; otherwise one recipe is
      created with `dishId` set to the poster's id and the request's two arrays, or the
      validation error is passed on. */
  function AddRecipeOutcome(recipes: seq<RecipeRecord>, posters: seq<PosterRecord>, posterId: string,
                            ingredients: Option<seq<Ingredient>>, directions: Option<seq<Direction>>,
                            newId: string): (r: (Response, seq<RecipeRecord>))
    ensures FindPoster(posters, posterId).None? ==> r == (Answer(400, NoPosterMessage), recipes)
    ensures r.1 == recipes || r.1 == recipes + [NewRecipe(newId, posterId, ingredients, directions)]
    ensures r.1 != recipes <==> r.0.OneRecipe?
    ensures r.0.OneRecipe? ==> r.0 == OneRecipe(201, AddedMessage, NewRecipe(newId, posterId, ingredients, directions))
    ensures FindPoster(posters, posterId).Some? ==>
      var recipe := NewRecipe(newId, posterId, ingredients, directions);
      && (ValidRecipe(recipe) ==> r == (OneRecipe(201, AddedMessage, recipe), recipes + [recipe]))
      && (!ValidRecipe(recipe) ==> r == (Forward("ValidationError"), recipes))
  {
    if FindPoster(posters, posterId).None? then (Answer(400, NoPosterMessage), recipes)
    else
      var recipe := NewRecipe(newId, posterId, ingredients, directions);
      if !ValidRecipe(recipe) then (Forward("ValidationError"), recipes)
      else (OneRecipe(201, AddedMessage, recipe), recipes + [recipe])
  }

  /** `updateRecipe`: refused when no recipe has the id; otherwise the update sets only
      `ingredients`, after the sub-schema validators have run. An absent `ingredients`
      leaves nothing to update. */
  function UpdateRecipeOutcome(recipes: seq<RecipeRecord>, id: string, ingredients: Option<seq<Ingredient>>)
    : (r: (Response, seq<RecipeRecord>))
    ensures FindRecipeIndex(recipes, id).None? ==> r == (Answer(400, NoRecipeToUpdateMessage), recipes)
    ensures |r.1| == |recipes|
    ensures FindRecipeIndex(recipes, id).Some? ==>
      var i := FindRecipeIndex(recipes, id).value;
      && (ingredients.None? ==> r == (OneRecipe(200, UpdatedMessage, recipes[i]), recipes))
      && (ingredients.Some? && !ValidIngredients(ingredients.value) ==> r == (Forward("ValidationError"), recipes))
      && (ingredients.Some? && ValidIngredients(ingredients.value) ==>
            var updated := recipes[i].(ingredients := ingredients.value);
            r == (OneRecipe(200, UpdatedMessage, updated), recipes[i := updated]))
  {
    match FindRecipeIndex(recipes, id)
    case None => (Answer(400, NoRecipeToUpdateMessage), recipes)
    case Some(i) =>
      match ingredients
      case None => (OneRecipe(200, UpdatedMessage, recipes[i]), recipes)
      case Some(list) =>
        if !ValidIngredients(list) then (Forward("ValidationError"), recipes)
        else
          var updated := recipes[i].(ingredients := list);
          (OneRecipe(200, UpdatedMessage, updated), recipes[i := updated])
  }

  /** `findRecipe`: the recipe with the id, or 400 when there is none. */
  function FindRecipeOutcome(recipes: seq<RecipeRecord>, id: string): (r: Response)
    ensures r.OneRecipe? || r == Answer(400, NoRecipeMessage)
    ensures r.OneRecipe? ==> r.status == 200 && r.recipe in recipes && r.recipe.id == id
    ensures r.OneRecipe? <==> exists j :: 0 <= j < |recipes| && recipes[j].id == id
  {
    match FindRecipeIndex(recipes, id)
    case None => Answer(400, NoRecipeMessage)
    case Some(i) => OneRecipe(200, "", recipes[i])
  }

  /** `getRecipeByDishId`: the first recipe of the dish merged with the poster, or a
      message — with status 200 — when the poster or the recipe is missing. */
  function RecipeByDishIdOutcome(recipes: seq<RecipeRecord>, posters: seq<PosterRecord>, id: string): (r: Response)
    ensures !r.Forward? && r.status == 200
    ensures FindPoster(posters, id).None? ==> r == Answer(200, NoDishPosterMessage)
  {
    match FindPoster(posters, id)
    case None => Answer(200, NoDishPosterMessage)
    case Some(p) =>
      match FindByDish(recipes, id)
      case None => Answer(200, NoDishRecipeMessage)
      case Some(i) => Dish(200, Merge(RecipeDoc(recipes[i]), PosterDoc(posters[p])))
  }

  /** The recipe and poster collections and the handlers that read and change them. */
  class RecipeStore {
    var recipes: seq<RecipeRecord>
    var posters: seq<PosterRecord>

    constructor (posters: seq<PosterRecord>)
      ensures this.recipes == [] && this.posters == posters
    {
      recipes := [];
      this.posters := posters;
    }

    /** `addRecipe` for the poster `posterId`; `newId` is the id the database gives the
        new recipe. */
    method AddRecipe(posterId: string, ingredients: Option<seq<Ingredient>>, directions: Option<seq<Direction>>,
                     newId: string) returns (response: Response)
      modifies this
      ensures posters == old(posters)
      ensures (response, recipes) == AddRecipeOutcome(old(recipes), posters, posterId, ingredients, directions, newId)
    {
      var poster := FindPoster(posters, posterId);
      if poster.None? {
        return Answer(400, NoPosterMessage);
      }
      var recipe := NewRecipe(newId, posterId, ingredients, directions);
      if !ValidRecipe(recipe) {
        return Forward("ValidationError");
      }
      recipes := recipes + [recipe];
      response := OneRecipe(201, AddedMessage, recipe);
    }

    /** `updateRecipe` of the recipe `id` with the request's `ingredients`. */
    method UpdateRecipe(id: string, ingredients: Option<seq<Ingredient>>) returns (response: Response)
      modifies this
      ensures posters == old(posters)
      ensures (response, recipes) == UpdateRecipeOutcome(old(recipes), id, ingredients)
    {
      var found := FindRecipeIndex(recipes, id);
      if found.None? {
        return Answer(400, NoRecipeToUpdateMessage);
      }
      var i := found.value;
      if ingredients.None? {
        return OneRecipe(200, UpdatedMessage, recipes[i]);
      }
      if !ValidIngredients(ingredients.value) {
        return Forward("ValidationError");
      }
      recipes := recipes[i := recipes[i].(ingredients := ingredients.value)];
      response := OneRecipe(200, UpdatedMessage, recipes[i]);
    }

    /** `findRecipe`; reads only. */
    method FindRecipe(id: string) returns (response: Response)
      ensures response == FindRecipeOutcome(recipes, id)
      ensures response.OneRecipe? ==> response.recipe in recipes && response.recipe.id == id
    {
      var found := FindRecipeIndex(recipes, id);
      if found.None? {
        return Answer(400, NoRecipeMessage);
      }
      response := OneRecipe(200, "", recipes[found.value]);
    }

    /** `getRecipeByDishId`; reads only. */
    method GetRecipeByDishId(id: string) returns (response: Response)
      ensures response == RecipeByDishIdOutcome(recipes, posters, id)
      ensures !response.Forward? && response.status == 200
    {
      var poster := FindPoster(posters, id);
      if poster.None? {
        return Answer(200, NoDishPosterMessage);
      }
      var recipe := FindByDish(recipes, id);
      if recipe.None? {
        return Answer(200, NoDishRecipeMessage);
      }
      response := Dish(200, Merge(RecipeDoc(recipes[recipe.value]), PosterDoc(posters[poster.value])));
    }

    /** `findAllRecipe`: every recipe, in storage order. */
    method FindAllRecipes() returns (response: Response)
      ensures response == AllRecipes(200, recipes)
      ensures forall r :: r in recipes ==> r in response.recipes
    {
      response := AllRecipes(200, recipes);
    }
  }

  /** A new recipe belongs to the poster it was added under, carries exactly the request's
      arrays (empty when absent) and has every other field unset. */
  lemma AddedRecipeFields(recipes: seq<RecipeRecord>, posters: seq<PosterRecord>, posterId: string,
                          ingredients: Option<seq<Ingredient>>, directions: Option<seq<Direction>>, newId: string)
    requires AddRecipeOutcome(recipes, posters, posterId, ingredients, directions, newId).0.OneRecipe?
    ensures var after := AddRecipeOutcome(recipes, posters, posterId, ingredients, directions, newId).1;
      && |after| == |recipes| + 1 && after[..|recipes|] == recipes
      && after[|recipes|].id == newId && after[|recipes|].dishId == Some(posterId)
      && after[|recipes|].ingredients == ingredients.GetOr([])
      && after[|recipes|].directions == directions.GetOr([])
      && after[|recipes|].name.None? && after[|recipes|].img.None? && after[|recipes|].userId.None?
      && exists p :: 0 <= p < |posters| && posters[p].id == posterId
  {
    var after := AddRecipeOutcome(recipes, posters, posterId, ingredients, directions, newId).1;
    assert after[..|recipes|] == recipes;
    var p := FindPoster(posters, posterId).value;
    assert posters[p].id == posterId;
  }

  /** An update replaces the `ingredients` of the one recipe with the id, and nothing else:
      every other field of it and every other recipe stay as they were. A missing recipe,
      an absent list and an invalid list change nothing. */
  lemma UpdateReplacesOnlyIngredients(recipes: seq<RecipeRecord>, id: string, ingredients: Option<seq<Ingredient>>)
    ensures var after := UpdateRecipeOutcome(recipes, id, ingredients).1;
      && |after| == |recipes|
      && (after != recipes ==>
            && ingredients.Some? && ValidIngredients(ingredients.value)
            && exists i :: 0 <= i < |recipes| && recipes[i].id == id
                 && after[i] == recipes[i].(ingredients := ingredients.value)
                 && forall j :: 0 <= j < |recipes| && j != i ==> after[j] == recipes[j])
      && (ingredients.None? || FindRecipeIndex(recipes, id).None? ==> after == recipes)
  {
    var after := UpdateRecipeOutcome(recipes, id, ingredients).1;
    if after != recipes {
      var i := FindRecipeIndex(recipes, id).value;
      assert after == recipes[i := recipes[i].(ingredients := ingredients.value)];
    }
  }

  /** In the merged dish, a key both documents have takes the poster's value: the reply's
      `_id` is the poster's id, not the recipe's, and the recipe's arrays survive. */
  lemma PosterFieldsWin(recipe: RecipeRecord, poster: PosterRecord)
    ensures var m := Merge(RecipeDoc(recipe), PosterDoc(poster));
      && m["_id"] == Text(poster.id)
      && m["ingredients"] == IngredientList(recipe.ingredients)
      && m["directions"] == DirectionList(recipe.directions)
      && (poster.name.Some? ==> m["name"] == Text(poster.name.value))
      && (poster.name.None? && recipe.name.Some? ==> m["name"] == Text(recipe.name.value))
  {
  }

  /** Only the first recipe of a dish is shown: when two recipes share the dish, the
      reply is built from the earlier one. */
  lemma FirstRecipeOfDishShown(recipes: seq<RecipeRecord>, posters: seq<PosterRecord>, id: string, i: nat)
    requires i < |recipes| && recipes[i].dishId == Some(id)
    requires forall j :: 0 <= j < i ==> recipes[j].dishId != Some(id)
    requires FindPoster(posters, id).Some?
    ensures RecipeByDishIdOutcome(recipes, posters, id)
      == Dish(200, Merge(RecipeDoc(recipes[i]), PosterDoc(posters[FindPoster(posters, id).value])))
  {
    var r := FindByDish(recipes, id);
    assert r.Some?;
    assert r.value == i;
  }

  /** A dish without recipes is answered with a message and status 200, not an error. */
  lemma DishWithoutRecipeIsNotAnError(recipes: seq<RecipeRecord>, posters: seq<PosterRecord>, id: string)
    requires FindPoster(posters, id).Some?
    requires forall j :: 0 <= j < |recipes| ==> recipes[j].dishId != Some(id)
    ensures RecipeByDishIdOutcome(recipes, posters, id) == Answer(200, NoDishRecipeMessage)
  {
  }

  /** As written, a recipe added under an existing poster is not found by that poster's id:
      the stored recipe has no `dishId`, so `getRecipeByDishId` answers "No recipe in this
      id. " right after the recipe was added, when no recipe stored before has a `dishId`. */
  lemma AsWrittenAddedRecipeNotFound(recipes: seq<RecipeRecord>, posters: seq<PosterRecord>, posterId: string,
                                     ingredients: Option<seq<Ingredient>>, directions: Option<seq<Direction>>,
                                     newId: string)
    requires forall j :: 0 <= j < |recipes| ==> recipes[j].dishId.None?
    requires FindPoster(posters, posterId).Some?
    ensures var after := recipes + [NewRecipeAsWritten(newId, posterId, ingredients, directions)];
      RecipeByDishIdOutcome(after, posters, posterId) == Answer(200, NoDishRecipeMessage)
  {
    var after := recipes + [NewRecipeAsWritten(newId, posterId, ingredients, directions)];
    assert forall j :: 0 <= j < |after| ==> after[j].dishId.None?;
    assert FindByDish(after, posterId).None?;
  }

  /** With `dishId` stored, a recipe added under a poster that had no recipe yet is the
      one `getRecipeByDishId` shows for that poster, merged with the poster. */
  lemma AddedRecipeFoundByDish(recipes: seq<RecipeRecord>, posters: seq<PosterRecord>, posterId: string,
                               ingredients: Option<seq<Ingredient>>, directions: Option<seq<Direction>>,
                               newId: string)
    requires AddRecipeOutcome(recipes, posters, posterId, ingredients, directions, newId).0.OneRecipe?
    requires forall j :: 0 <= j < |recipes| ==> recipes[j].dishId != Some(posterId)
    ensures var after := AddRecipeOutcome(recipes, posters, posterId, ingredients, directions, newId).1;
      && FindPoster(posters, posterId).Some?
      && RecipeByDishIdOutcome(after, posters, posterId)
         == Dish(200, Merge(RecipeDoc(NewRecipe(newId, posterId, ingredients, directions)),
                            PosterDoc(posters[FindPoster(posters, posterId).value])))
  {
    var after := AddRecipeOutcome(recipes, posters, posterId, ingredients, directions, newId).1;
    var recipe := NewRecipe(newId, posterId, ingredients, directions);
    assert after == recipes + [recipe];
    assert after[|recipes|] == recipe;
    assert FindByDish(after, posterId) == Some(|recipes|);
  }
}
