/**
 * The maintenance script that points one recipe at a new picture: it sets `image` and the
 * first entry of `images`, then saves the recipe, which re-runs the schema's validation.
 * The process exit code is the script's result.
 */
module UpdateRecipeImage {
  import opened Ids
  import opened RecipeModel
  import opened Aggregates
  import opened Database

  const TargetRecipe: RecipeId := "68d5e996e92db1861b260699"
  const NewImageUrl: string := "/Vegan-Creamy-Pasta-Primavera_done.png"

  /**
   * The recipe with its picture replaced: `image` becomes `url`, and so does the first of
   * `images`, which becomes `[url]` when it was empty. Nothing else changes.
   */
  function WithImage(r: Recipe, url: string): (r': Recipe)
    ensures r'.image == url && |r'.images| > 0 && r'.images[0] == url
    ensures |r.images| > 0 ==> |r'.images| == |r.images| && r'.images[1..] == r.images[1..]
    ensures |r.images| == 0 ==> r'.images == [url]
    ensures r'.(image := r.image, images := r.images) == r
  {
    r.(image := url, images := if |r.images| > 0 then r.images[0 := url] else [url])
  }

  /** Running the script a second time changes nothing more. */
  lemma WithImageIdempotent(r: Recipe, url: string)
    ensures WithImage(WithImage(r, url), url) == WithImage(r, url)
  {
  }

  /** The save succeeds on a valid recipe exactly when the new url is non-empty (`image` is required). */
  lemma WithImageValid(r: Recipe, url: string)
    requires ValidRecipe(r)
    ensures ValidRecipe(WithImage(r, url)) <==> url != ""
  {
  }

  /**
   * `updateRecipeImage`: exit code 1 with nothing written when the recipe is missing or the
   * save's validation fails, otherwise the recipe is stored with its new picture and the
   * exit code is 0.
   */
  method UpdateImage(db: Db, recipeId: RecipeId, url: string) returns (exitCode: int)
    requires db.Valid()
    modifies db
    ensures db.Valid()
    ensures old(db.Synced()) ==> db.Synced()
    ensures exitCode == 0 <==> recipeId in old(db.recipes) && url != ""
    ensures exitCode != 0 ==> exitCode == 1
    ensures db.users == old(db.users) && db.reviews == old(db.reviews)
    ensures exitCode == 0 ==> db.recipes == old(db.recipes)[recipeId := WithImage(old(db.recipes)[recipeId], url)]
    ensures exitCode != 0 ==> db.recipes == old(db.recipes)
  {
    if recipeId !in db.recipes {
      return 1;
    }
    var recipe := db.recipes[recipeId];
    recipe := recipe.(image := url);
    if |recipe.images| > 0 {
      recipe := recipe.(images := recipe.images[0 := url]);
    } else {
      recipe := recipe.(images := [url]);
    }
    WithImageValid(db.recipes[recipeId], url);
    if !ValidRecipe(recipe) {
      return 1;
    }
    if db.Synced() {
      StoreInSyncAfterContentWrite(db.recipes, db.reviews, recipeId, recipe);
    }
    ValidAfterRecipeWrite(db.users, db.recipes, db.reviews, recipeId, recipe);
    db.recipes := db.recipes[recipeId := recipe];
    return 0;
  }

  /** The script as shipped, with its fixed recipe id and image path. */
  method RunScript(db: Db) returns (exitCode: int)
    requires db.Valid()
    modifies db
    ensures db.Valid()
    ensures old(db.Synced()) ==> db.Synced()
    ensures exitCode == 0 <==> TargetRecipe in old(db.recipes)
    ensures exitCode == 0 ==> TargetRecipe in db.recipes && db.recipes[TargetRecipe].image == NewImageUrl
    ensures exitCode != 0 ==> exitCode == 1 && db.recipes == old(db.recipes)
    ensures db.users == old(db.users) && db.reviews == old(db.reviews)
  {
    exitCode := UpdateImage(db, TargetRecipe, NewImageUrl);
  }
}
