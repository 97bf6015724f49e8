/**
 * The create and update handlers of the Ingredients resource in
 * RecipesPlusPlusApi/api.py. `post` and `put` run the same validation; it is
 * modelled once, by CheckIngredient, and specified by ValidateIngredient.
 */
module Ingredients {
  import opened Wrappers
  import opened JsonValues
  import opened RequestChecks

  /** The fields an accepted body hands to the store, defaults filled in. */
  datatype Ingredient = Ingredient(name: string, imageUrl: string)

  const IngredientSuffix: string := "(optional: image_url (str))"

  /** The fragments of the rejection message, field by field: name, then image_url. */
  function IngredientErrors(value: Body): string {
    NameErrors(value) + ImageUrlErrors(value)
  }

  /** What validating a body yields: the ingredient, or the message of the 400 answer. */
  function ValidateIngredient(value: Body): Result<Ingredient, string> {
    if IngredientErrors(value) == "" then
      Ok(Ingredient(value["name"].s, StringOr(value, "image_url", "")))
    else
      Err(Prefix + IngredientErrors(value) + IngredientSuffix)
  }

  /**
   * The validation block of `Ingredients.post` and `Ingredients.put`: raise a
   * flag and append a fragment for each bad field, then the suffix.
   */
  method CheckIngredient(value: Body) returns (r: Result<Ingredient, string>)
    ensures r == ValidateIngredient(value)
  {
    var isInvalid := false;
    var errorMsg := Prefix;
    isInvalid, errorMsg := CheckRequiredString(value, "name", NameFragment, isInvalid, errorMsg);
    var imageUrl;
    imageUrl, isInvalid, errorMsg := CheckOptionalString(value, "image_url", "", ImageUrlFragment, isInvalid, errorMsg);
    AppendAssoc(Prefix, NameErrors(value), ImageUrlErrors(value));
    errorMsg := errorMsg + IngredientSuffix;
    if isInvalid {
      r := Err(errorMsg);
    } else {
      r := Ok(Ingredient(value["name"].s, imageUrl.s));
    }
  }

  /** A body is rejected exactly when name is not a non-empty str or image_url is present and not a str. */
  lemma IngredientRejectedIff(value: Body)
    ensures ValidateIngredient(value).Err? <==>
              !RequiredString(value, "name") || ("image_url" in value && !value["image_url"].JString?)
  {
  }

  /** An accepted body keeps its name and image_url; a missing image_url defaults to "". */
  lemma IngredientAcceptedFields(value: Body)
    ensures ValidateIngredient(value).Ok? ==>
              var ingredient := ValidateIngredient(value).value;
              && ingredient.name != ""
              && "name" in value && value["name"] == JString(ingredient.name)
              && ("image_url" in value ==> value["image_url"] == JString(ingredient.imageUrl))
              && ("image_url" !in value ==> ingredient.imageUrl == "")
  {
  }

  /**
   * A rejection message starts with the fixed prefix, lists the fragment of
   * every bad field in the order name, image_url, and ends with the
   * optional-fields suffix.
   */
  lemma IngredientRejectionMessage(value: Body)
    ensures ValidateIngredient(value).Err? ==>
              ValidateIngredient(value).error
              == Prefix + (NameErrors(value) + ImageUrlErrors(value)) + IngredientSuffix
    ensures (NameErrors(value) == "") <==> RequiredString(value, "name")
    ensures (ImageUrlErrors(value) == "") <==> OptionalString(value, "image_url")
  {
  }

  /** The body that carries an ingredient's fields. */
  function IngredientBody(ingredient: Ingredient): Body {
    map["name" := JString(ingredient.name), "image_url" := JString(ingredient.imageUrl)]
  }

  /** Writing an ingredient back as a body and validating it again gives the same ingredient. */
  lemma IngredientRoundTrip(ingredient: Ingredient)
    ensures ValidateIngredient(IngredientBody(ingredient)).Ok? <==> ingredient.name != ""
    ensures ingredient.name != "" ==> ValidateIngredient(IngredientBody(ingredient)) == Ok(ingredient)
  {
  }

  /** The store writes the two handlers ask for; their definitions are not part of this model. */
  datatype IngredientWrite =
    | AddIngredient(ingredient: Ingredient)
    | UpdateIngredient(id: int, ingredient: Ingredient)

  /**
   * `Ingredients.post`: validate, then add the ingredient. The write happens
   * only for an accepted body and carries the defaulted fields; `writeRaises`
   * stands for the store call failing.
   */
  method Post(value: Body, writeRaises: bool) returns (write: Option<IngredientWrite>, response: Response)
    ensures write.Some? <==> ValidateIngredient(value).Ok?
    ensures write.Some? ==> write.value == AddIngredient(ValidateIngredient(value).value)
    ensures ValidateIngredient(value).Err? ==> response == BadRequest(ValidateIngredient(value).error)
    ensures ValidateIngredient(value).Ok? ==>
              response == if writeRaises then BadRequest("No ingredient added.") else Accepted
  {
    var checked := CheckIngredient(value);
    match checked
    case Err(errorMsg) =>
      write, response := None, BadRequest(errorMsg);
    case Ok(ingredient) =>
      write := Some(AddIngredient(ingredient));
      response := if writeRaises then BadRequest("No ingredient added.") else Accepted;
  }

  /** `Ingredients.put`: the same validation as `post`, then update the ingredient `id`. */
  method Put(id: int, value: Body, writeRaises: bool) returns (write: Option<IngredientWrite>, response: Response)
    ensures write.Some? <==> ValidateIngredient(value).Ok?
    ensures write.Some? ==> write.value == UpdateIngredient(id, ValidateIngredient(value).value)
    ensures ValidateIngredient(value).Err? ==> response == BadRequest(ValidateIngredient(value).error)
    ensures ValidateIngredient(value).Ok? ==>
              response == if writeRaises then BadRequest("No ingredient updated.") else Accepted
  {
    var checked := CheckIngredient(value);
    match checked
    case Err(errorMsg) =>
      write, response := None, BadRequest(errorMsg);
    case Ok(ingredient) =>
      write := Some(UpdateIngredient(id, ingredient));
      response := if writeRaises then BadRequest("No ingredient updated.") else Accepted;
  }
}
