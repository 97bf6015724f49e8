/**
 * The create and update handlers of the Recipes resource in
 * RecipesPlusPlusApi/api.py. `post` and `put` run the same validation; it is
 * modelled once, by CheckRecipe, and specified by ValidateRecipe. The ids of
 * the stored ingredients and units, which the handlers fetch from the store,
 * are parameters.
 */
module Recipes {
  import opened Wrappers
  import opened JsonValues
  import opened RequestChecks

  /** One ingredient line of a recipe. */
  datatype LineItem = LineItem(ingredientId: int, unitId: int, quantity: int)

  /** The fields an accepted body hands to the store, defaults filled in. */
  datatype Recipe = Recipe(
    ingredients: seq<LineItem>,
    instructions: seq<string>,
    name: string,
    calories: int,
    imageUrl: string,
    time: int)

  const IngredientsFragment: string :=
    "ingredients (list of dict { ingredientId (int), unitId (int), quantity (int) }) "
  const LineOpen: string := "ingredients (list of dict { "
  const LineClose: string := "}) "
  const QuantityFragment: string := "quantity (int) "
  const InstructionsFragment: string := "instructions (list) "
  const InstructionStringsFragment: string := "instructions (list of str) "
  const CaloriesFragment: string := "calories (int) "
  const TimeFragment: string := "time (int) "
  const RecipeSuffix: string := "(optional: calories (int) image_url (str) time (int))"

  /** `key` is present with a value of type int. */
  predicate IntField(fields: Body, key: string) {
    key in fields && fields[key].JInt?
  }

  /** An ingredient line of the right shape: an object with int ingredientId, unitId and quantity. */
  predicate WellTypedLine(item: Json) {
    item.JObject?
    && IntField(item.fields, "ingredientId")
    && IntField(item.fields, "unitId")
    && IntField(item.fields, "quantity")
  }

  /** An ingredient line the handlers accept: well typed, and naming a stored ingredient and unit. */
  predicate ValidLine(item: Json, ingredientIds: seq<int>, unitIds: seq<int>) {
    WellTypedLine(item)
    && item.fields["ingredientId"].i in ingredientIds
    && item.fields["unitId"].i in unitIds
  }

  const IngredientIdType: string := "ingredientId (int) "
  const IngredientIdMissing: string := "ingredientId (ID not valid) "
  const UnitIdType: string := "unitId (int) "
  const UnitIdMissing: string := "unitId (ID not valid) "

  /**
   * The detail for a reference field of a line: its type error, else its
   * missing-record error, else nothing. Only an int id is looked up.
   */
  function ReferenceDetail(fields: Body, key: string, existing: seq<int>, typeError: string, missing: string): string {
    if !IntField(fields, key) then typeError
    else if fields[key].i !in existing then missing
    else ""
  }

  function IngredientIdDetail(fields: Body, ingredientIds: seq<int>): string {
    ReferenceDetail(fields, "ingredientId", ingredientIds, IngredientIdType, IngredientIdMissing)
  }

  function UnitIdDetail(fields: Body, unitIds: seq<int>): string {
    ReferenceDetail(fields, "unitId", unitIds, UnitIdType, UnitIdMissing)
  }

  function QuantityDetail(fields: Body): string {
    if IntField(fields, "quantity") then "" else QuantityFragment
  }

  /** The fragment one ingredient line contributes; "" for an accepted line. */
  function LineFragment(item: Json, ingredientIds: seq<int>, unitIds: seq<int>): string {
    if !item.JObject? then IngredientsFragment
    else
      var details := IngredientIdDetail(item.fields, ingredientIds) + UnitIdDetail(item.fields, unitIds)
                     + QuantityDetail(item.fields);
      if details == "" then "" else LineOpen + details + LineClose
  }

  /** The fragment of the first rejected line, if any: later lines are not examined. */
  function LineScan(items: seq<Json>, ingredientIds: seq<int>, unitIds: seq<int>): string {
    if items == [] then ""
    else if LineFragment(items[0], ingredientIds, unitIds) != "" then LineFragment(items[0], ingredientIds, unitIds)
    else LineScan(items[1..], ingredientIds, unitIds)
  }

  /** `ingredients` is a non-empty list. */
  predicate IngredientsListed(value: Body) {
    "ingredients" in value && value["ingredients"].JList? && value["ingredients"].items != []
  }

  /** `instructions` is a list (possibly empty). */
  predicate InstructionsListed(value: Body) {
    "instructions" in value && value["instructions"].JList?
  }

  predicate AllStrings(items: seq<Json>) {
    forall i :: 0 <= i < |items| ==> items[i].JString?
  }

  function IngredientsErrors(value: Body, ingredientIds: seq<int>, unitIds: seq<int>): string {
    if IngredientsListed(value) then LineScan(value["ingredients"].items, ingredientIds, unitIds)
    else IngredientsFragment
  }

  function InstructionsErrors(value: Body): string {
    if !InstructionsListed(value) then InstructionsFragment
    else if AllStrings(value["instructions"].items) then ""
    else InstructionStringsFragment
  }

  function CaloriesErrors(value: Body): string {
    if OptionalInt(value, "calories") then "" else CaloriesFragment
  }

  function TimeErrors(value: Body): string {
    if OptionalInt(value, "time") then "" else TimeFragment
  }

  /** The fragments in the fixed order ingredients, instructions, name, calories, image_url, time. */
  function RecipeErrors(value: Body, ingredientIds: seq<int>, unitIds: seq<int>): string {
    IngredientsErrors(value, ingredientIds, unitIds)
    + InstructionsErrors(value)
    + NameErrors(value)
    + CaloriesErrors(value)
    + ImageUrlErrors(value)
    + TimeErrors(value)
  }

  function LineOf(item: Json): LineItem
    requires WellTypedLine(item)
  {
    LineItem(item.fields["ingredientId"].i, item.fields["unitId"].i, item.fields["quantity"].i)
  }

  function LinesOf(items: seq<Json>): (lines: seq<LineItem>)
    requires forall i :: 0 <= i < |items| ==> WellTypedLine(items[i])
  {
    seq(|items|, i requires 0 <= i < |items| && WellTypedLine(items[i]) => LineOf(items[i]))
  }

  function StringsOf(items: seq<Json>): (strings: seq<string>)
    requires AllStrings(items)
  {
    seq(|items|, i requires 0 <= i < |items| && items[i].JString? => items[i].s)
  }

  /** What validating a body yields: the recipe, or the message of the 400 answer. */
  function ValidateRecipe(value: Body, ingredientIds: seq<int>, unitIds: seq<int>): Result<Recipe, string> {
    if RecipeErrors(value, ingredientIds, unitIds) == "" then
      var items := value["ingredients"].items;
      LineScanEmptyIff(items, ingredientIds, unitIds);
      Ok(Recipe(
        LinesOf(items),
        StringsOf(value["instructions"].items),
        value["name"].s,
        IntOr(value, "calories", -1),
        StringOr(value, "image_url", ""),
        IntOr(value, "time", -1)))
    else
      Err(Prefix + RecipeErrors(value, ingredientIds, unitIds) + RecipeSuffix)
  }

  /** A line contributes no fragment exactly when it is accepted. */
  lemma LineFragmentEmptyIff(item: Json, ingredientIds: seq<int>, unitIds: seq<int>)
    ensures LineFragment(item, ingredientIds, unitIds) == "" <==> ValidLine(item, ingredientIds, unitIds)
  {
  }

  /** The scan reports nothing exactly when every line is accepted. */
  lemma {:induction false} LineScanEmptyIff(items: seq<Json>, ingredientIds: seq<int>, unitIds: seq<int>)
    ensures LineScan(items, ingredientIds, unitIds) == "" <==>
              forall i :: 0 <= i < |items| ==> ValidLine(items[i], ingredientIds, unitIds)
  {
    if items != [] {
      LineFragmentEmptyIff(items[0], ingredientIds, unitIds);
      LineScanEmptyIff(items[1..], ingredientIds, unitIds);
      assert forall i :: 1 <= i < |items| ==> items[i] == items[1..][i - 1];
    }
  }

  /**
   * The scan reports the fragment of the first rejected line and of no other:
   * at most one line fragment reaches the message.
   */
  lemma {:induction false} LineScanReportsFirstRejected(items: seq<Json>, ingredientIds: seq<int>, unitIds: seq<int>, k: int)
    requires 0 <= k < |items|
    requires forall i :: 0 <= i < k ==> ValidLine(items[i], ingredientIds, unitIds)
    requires !ValidLine(items[k], ingredientIds, unitIds)
    ensures LineScan(items, ingredientIds, unitIds) == LineFragment(items[k], ingredientIds, unitIds) != ""
  {
    LineFragmentEmptyIff(items[0], ingredientIds, unitIds);
    if k > 0 {
      LineScanReportsFirstRejected(items[1..], ingredientIds, unitIds, k - 1);
    } else {
      LineFragmentEmptyIff(items[k], ingredientIds, unitIds);
    }
  }

  /**
   * Within a line, a type error on ingredientId or unitId takes precedence
   * over its existence check, and a non-int id is never looked up: its detail
   * is the same whatever records exist.
   */
  lemma TypeErrorBeforeExistence(fields: Body, ingredientIds: seq<int>, unitIds: seq<int>, otherIds: seq<int>)
    ensures !IntField(fields, "ingredientId") ==>
              IngredientIdDetail(fields, ingredientIds) == IngredientIdDetail(fields, otherIds) == IngredientIdType
    ensures !IntField(fields, "unitId") ==>
              UnitIdDetail(fields, unitIds) == UnitIdDetail(fields, otherIds) == UnitIdType
    ensures IntField(fields, "ingredientId") ==>
              (IngredientIdDetail(fields, ingredientIds) == IngredientIdMissing <==> fields["ingredientId"].i !in ingredientIds)
    ensures IntField(fields, "unitId") ==>
              (UnitIdDetail(fields, unitIds) == UnitIdMissing <==> fields["unitId"].i !in unitIds)
  {
  }

  /** The rules a body must meet, field by field. */
  predicate RecipeAcceptable(value: Body, ingredientIds: seq<int>, unitIds: seq<int>) {
    && IngredientsListed(value)
    && (forall i :: 0 <= i < |value["ingredients"].items| ==>
          ValidLine(value["ingredients"].items[i], ingredientIds, unitIds))
    && InstructionsListed(value) && AllStrings(value["instructions"].items)
    && RequiredString(value, "name")
    && OptionalInt(value, "calories")
    && OptionalString(value, "image_url")
    && OptionalInt(value, "time")
  }

  /** The ingredients slot is empty exactly when the ingredients rule holds. */
  lemma IngredientsErrorsEmptyIff(value: Body, ingredientIds: seq<int>, unitIds: seq<int>)
    ensures (IngredientsErrors(value, ingredientIds, unitIds) == "") <==>
              IngredientsListed(value)
              && forall i :: 0 <= i < |value["ingredients"].items| ==>
                   ValidLine(value["ingredients"].items[i], ingredientIds, unitIds)
  {
    if IngredientsListed(value) {
      LineScanEmptyIff(value["ingredients"].items, ingredientIds, unitIds);
    }
  }

  /** A body is accepted exactly when it meets every field rule. */
  lemma RecipeAcceptedIff(value: Body, ingredientIds: seq<int>, unitIds: seq<int>)
    ensures ValidateRecipe(value, ingredientIds, unitIds).Ok? <==> RecipeAcceptable(value, ingredientIds, unitIds)
  {
    IngredientsErrorsEmptyIff(value, ingredientIds, unitIds);
  }

  /**
   * An accepted body keeps its lines, instructions and name; calories and
   * time default to -1 and image_url to "" when absent.
   */
  lemma RecipeAcceptedFields(value: Body, ingredientIds: seq<int>, unitIds: seq<int>, recipe: Recipe)
    requires ValidateRecipe(value, ingredientIds, unitIds) == Ok(recipe)
    ensures RecipeAcceptable(value, ingredientIds, unitIds)
    ensures |recipe.ingredients| == |value["ingredients"].items| > 0
    ensures forall i :: 0 <= i < |recipe.ingredients| ==>
              value["ingredients"].items[i].JObject?
              && value["ingredients"].items[i].fields["ingredientId"] == JInt(recipe.ingredients[i].ingredientId)
              && value["ingredients"].items[i].fields["unitId"] == JInt(recipe.ingredients[i].unitId)
              && value["ingredients"].items[i].fields["quantity"] == JInt(recipe.ingredients[i].quantity)
              && recipe.ingredients[i].ingredientId in ingredientIds
              && recipe.ingredients[i].unitId in unitIds
    ensures |recipe.instructions| == |value["instructions"].items|
    ensures forall i :: 0 <= i < |recipe.instructions| ==>
              value["instructions"].items[i] == JString(recipe.instructions[i])
    ensures recipe.name != "" && value["name"] == JString(recipe.name)
    ensures recipe.calories == (if "calories" in value then value["calories"].i else -1)
    ensures recipe.imageUrl == (if "image_url" in value then value["image_url"].s else "")
    ensures recipe.time == (if "time" in value then value["time"].i else -1)
  {
    RecipeAcceptedIff(value, ingredientIds, unitIds);
  }

  /**
   * Errors accumulate: a rejection message is the prefix, then one slot per
   * top-level field in the order ingredients, instructions, name, calories,
   * image_url, time, then the optional-fields suffix. Each slot after the
   * first is empty exactly when its field meets its rule; for ingredients,
   * see IngredientsErrorsEmptyIff.
   */
  lemma RecipeRejectionMessage(value: Body, ingredientIds: seq<int>, unitIds: seq<int>)
    ensures ValidateRecipe(value, ingredientIds, unitIds).Err? ==>
              ValidateRecipe(value, ingredientIds, unitIds).error
              == Prefix + (IngredientsErrors(value, ingredientIds, unitIds) + InstructionsErrors(value)
                           + NameErrors(value) + CaloriesErrors(value) + ImageUrlErrors(value) + TimeErrors(value))
                 + RecipeSuffix
    ensures (InstructionsErrors(value) == "") <==> InstructionsListed(value) && AllStrings(value["instructions"].items)
    ensures (NameErrors(value) == "") <==> RequiredString(value, "name")
    ensures (CaloriesErrors(value) == "") <==> OptionalInt(value, "calories")
    ensures (ImageUrlErrors(value) == "") <==> OptionalString(value, "image_url")
    ensures (TimeErrors(value) == "") <==> OptionalInt(value, "time")
  {
  }

  /** The body that carries a line's fields. */
  function LineBody(line: LineItem): Json {
    JObject(map["ingredientId" := JInt(line.ingredientId), "unitId" := JInt(line.unitId),
                "quantity" := JInt(line.quantity)])
  }

  /** The body that carries a recipe's fields. */
  function RecipeBody(recipe: Recipe): Body {
    map[
      "ingredients" := JList(seq(|recipe.ingredients|, i requires 0 <= i < |recipe.ingredients| =>
                                   LineBody(recipe.ingredients[i]))),
      "instructions" := JList(seq(|recipe.instructions|, i requires 0 <= i < |recipe.instructions| =>
                                    JString(recipe.instructions[i]))),
      "name" := JString(recipe.name),
      "calories" := JInt(recipe.calories),
      "image_url" := JString(recipe.imageUrl),
      "time" := JInt(recipe.time)]
  }

  /** The body of a named recipe with at least one line, all naming stored records, meets every rule. */
  lemma RecipeBodyAcceptable(recipe: Recipe, ingredientIds: seq<int>, unitIds: seq<int>)
    requires recipe.name != "" && recipe.ingredients != []
    requires forall i :: 0 <= i < |recipe.ingredients| ==>
               recipe.ingredients[i].ingredientId in ingredientIds && recipe.ingredients[i].unitId in unitIds
    ensures RecipeAcceptable(RecipeBody(recipe), ingredientIds, unitIds)
  {
    var items := RecipeBody(recipe)["ingredients"].items;
    assert forall i :: 0 <= i < |items| ==> items[i] == LineBody(recipe.ingredients[i]);
    assert forall i :: 0 <= i < |items| ==> ValidLine(items[i], ingredientIds, unitIds);
  }

  /**
   * Writing a recipe back as a body and validating it again gives the same
   * recipe, provided it has a name and at least one line and all its lines
   * name stored ingredients and units.
   */
  lemma RecipeRoundTrip(recipe: Recipe, ingredientIds: seq<int>, unitIds: seq<int>)
    requires recipe.name != "" && recipe.ingredients != []
    requires forall i :: 0 <= i < |recipe.ingredients| ==>
               recipe.ingredients[i].ingredientId in ingredientIds && recipe.ingredients[i].unitId in unitIds
    ensures ValidateRecipe(RecipeBody(recipe), ingredientIds, unitIds) == Ok(recipe)
  {
    var value := RecipeBody(recipe);
    RecipeBodyAcceptable(recipe, ingredientIds, unitIds);
    RecipeAcceptedIff(value, ingredientIds, unitIds);
    var r := ValidateRecipe(value, ingredientIds, unitIds).value;
    RecipeAcceptedFields(value, ingredientIds, unitIds, r);
    var items := value["ingredients"].items;
    assert forall i :: 0 <= i < |items| ==> items[i] == LineBody(recipe.ingredients[i]);
    assert r.ingredients == recipe.ingredients;
    assert r.instructions == recipe.instructions;
  }

  /**
   * The checks on one ingredient line of `Recipes.post` and `Recipes.put`,
   * with the flag down on entry (ingredients is the first field checked and
   * every earlier line passed): a non-object gives the list fragment, else
   * each field's flags are set and, if any is up, its details are listed.
   */
  method CheckLine(ingredient: Json, ingredientIds: seq<int>, unitIds: seq<int>) returns (fragment: string)
    ensures fragment == LineFragment(ingredient, ingredientIds, unitIds)
  {
    if !ingredient.JObject? {
      return IngredientsFragment;
    }
    var fields := ingredient.fields;
    var isInvalid := false;
    var isInvalidIngredient, isNonExistentIngredient := false, false;
    var isInvalidUnit, isNonExistentUnit := false, false;
    var isInvalidQuantity := false;
    if "ingredientId" !in fields || fields["ingredientId"] == JNull || !fields["ingredientId"].JInt? {
      isInvalid, isInvalidIngredient := true, true;
    } else if fields["ingredientId"].i !in ingredientIds {
      isInvalid, isNonExistentIngredient := true, true;
    }
    if "unitId" !in fields || fields["unitId"] == JNull || !fields["unitId"].JInt? {
      isInvalid, isInvalidUnit := true, true;
    } else if fields["unitId"].i !in unitIds {
      isInvalid, isNonExistentUnit := true, true;
    }
    if "quantity" !in fields || fields["quantity"] == JNull || !fields["quantity"].JInt? {
      isInvalid, isInvalidQuantity := true, true;
    }
    ghost var idDetail, unitDetail := IngredientIdDetail(fields, ingredientIds), UnitIdDetail(fields, unitIds);
    ghost var quantityDetail := QuantityDetail(fields);
    assert isInvalid == (idDetail + unitDetail + quantityDetail != "");
    if isInvalid {
      var details := "";
      if isInvalidIngredient {
        details := details + IngredientIdType;
      } else if isNonExistentIngredient {
        details := details + IngredientIdMissing;
      }
      assert details == idDetail;
      if isInvalidUnit {
        details := details + UnitIdType;
      } else if isNonExistentUnit {
        details := details + UnitIdMissing;
      }
      assert details == idDetail + unitDetail;
      if isInvalidQuantity {
        details := details + QuantityFragment;
      }
      assert details == idDetail + unitDetail + quantityDetail;
      fragment := LineOpen + details + LineClose;
    } else {
      fragment := "";
    }
  }

  /**
   * The loop over the ingredient lines: the first rejected line appends its
   * fragment and ends the loop.
   */
  method ScanLines(lines: seq<Json>, ingredientIds: seq<int>, unitIds: seq<int>) returns (fragment: string)
    ensures fragment == LineScan(lines, ingredientIds, unitIds)
  {
    for n := 0 to |lines|
      invariant forall i :: 0 <= i < n ==> ValidLine(lines[i], ingredientIds, unitIds)
    {
      fragment := CheckLine(lines[n], ingredientIds, unitIds);
      LineFragmentEmptyIff(lines[n], ingredientIds, unitIds);
      if fragment != "" {
        LineScanReportsFirstRejected(lines, ingredientIds, unitIds, n);
        return;
      }
    }
    fragment := "";
    LineScanEmptyIff(lines, ingredientIds, unitIds);
  }

  /**
   * The loop over the instructions: the first element that is not a str
   * appends one fragment and ends the loop.
   */
  method ScanInstructions(instructions: seq<Json>) returns (fragment: string)
    ensures fragment == "" <==> AllStrings(instructions)
    ensures fragment == "" || fragment == InstructionStringsFragment
  {
    fragment := "";
    for n := 0 to |instructions|
      invariant fragment == ""
      invariant forall i :: 0 <= i < n ==> instructions[i].JString?
    {
      if !instructions[n].JString? {
        fragment := InstructionStringsFragment;
        return;
      }
    }
  }

  /** The `ingredients` check: a missing, null, falsy or non-list value, else the line scan. */
  method CheckIngredients(value: Body, ingredientIds: seq<int>, unitIds: seq<int>, isInvalid: bool, errorMsg: string)
    returns (isInvalid': bool, errorMsg': string)
    ensures isInvalid' == (isInvalid || IngredientsErrors(value, ingredientIds, unitIds) != "")
    ensures errorMsg' == errorMsg + IngredientsErrors(value, ingredientIds, unitIds)
  {
    isInvalid', errorMsg' := isInvalid, errorMsg;
    if "ingredients" !in value || value["ingredients"] == JNull || Falsy(value["ingredients"])
       || !value["ingredients"].JList? {
      isInvalid' := true;
      errorMsg' := errorMsg' + IngredientsFragment;
    } else {
      var fragment := ScanLines(value["ingredients"].items, ingredientIds, unitIds);
      if fragment != "" {
        isInvalid' := true;
      }
      errorMsg' := errorMsg' + fragment;
    }
  }

  /** The `instructions` check: a missing, null or non-list value, else the string scan. */
  method CheckInstructions(value: Body, isInvalid: bool, errorMsg: string)
    returns (isInvalid': bool, errorMsg': string)
    ensures isInvalid' == (isInvalid || InstructionsErrors(value) != "")
    ensures errorMsg' == errorMsg + InstructionsErrors(value)
  {
    isInvalid', errorMsg' := isInvalid, errorMsg;
    if "instructions" !in value || value["instructions"] == JNull || !value["instructions"].JList? {
      isInvalid' := true;
      errorMsg' := errorMsg' + InstructionsFragment;
    } else {
      var fragment := ScanInstructions(value["instructions"].items);
      if fragment != "" {
        isInvalid' := true;
      }
      errorMsg' := errorMsg' + fragment;
    }
  }

  /**
   * The field checks of `Recipes.post` and `Recipes.put`: each field in turn
   * raises the flag and appends its fragment when it fails, and a failure
   * never skips the fields after it. Also returns the optional fields as
   * read, or their defaults.
   */
  method CollectRecipeErrors(value: Body, ingredientIds: seq<int>, unitIds: seq<int>)
    returns (isInvalid: bool, errorMsg: string, calories: Json, imageUrl: Json, time: Json)
    ensures errorMsg == Prefix + RecipeErrors(value, ingredientIds, unitIds)
    ensures isInvalid == (RecipeErrors(value, ingredientIds, unitIds) != "")
    ensures calories == if "calories" in value then value["calories"] else JInt(-1)
    ensures imageUrl == if "image_url" in value then value["image_url"] else JString("")
    ensures time == if "time" in value then value["time"] else JInt(-1)
  {
    isInvalid := false;
    errorMsg := Prefix;
    ghost var errors := "";

    isInvalid, errorMsg := CheckIngredients(value, ingredientIds, unitIds, isInvalid, errorMsg);
    errors := IngredientsErrors(value, ingredientIds, unitIds);

    isInvalid, errorMsg := CheckInstructions(value, isInvalid, errorMsg);
    AppendAssoc(Prefix, errors, InstructionsErrors(value));
    errors := errors + InstructionsErrors(value);

    isInvalid, errorMsg := CheckRequiredString(value, "name", NameFragment, isInvalid, errorMsg);
    AppendAssoc(Prefix, errors, NameErrors(value));
    errors := errors + NameErrors(value);

    calories, isInvalid, errorMsg := CheckOptionalInt(value, "calories", -1, CaloriesFragment, isInvalid, errorMsg);
    AppendAssoc(Prefix, errors, CaloriesErrors(value));
    errors := errors + CaloriesErrors(value);

    imageUrl, isInvalid, errorMsg := CheckOptionalString(value, "image_url", "", ImageUrlFragment, isInvalid, errorMsg);
    AppendAssoc(Prefix, errors, ImageUrlErrors(value));
    errors := errors + ImageUrlErrors(value);

    time, isInvalid, errorMsg := CheckOptionalInt(value, "time", -1, TimeFragment, isInvalid, errorMsg);
    AppendAssoc(Prefix, errors, TimeErrors(value));
    errors := errors + TimeErrors(value);
  }

  /**
   * The validation block of `Recipes.post` and `Recipes.put`: the field
   * checks, the optional-fields suffix, then the recipe or the message.
   */
  method CheckRecipe(value: Body, ingredientIds: seq<int>, unitIds: seq<int>) returns (r: Result<Recipe, string>)
    ensures r == ValidateRecipe(value, ingredientIds, unitIds)
  {
    var isInvalid, errorMsg, calories, imageUrl, time := CollectRecipeErrors(value, ingredientIds, unitIds);
    errorMsg := errorMsg + RecipeSuffix;
    if isInvalid {
      r := Err(errorMsg);
    } else {
      IngredientsErrorsEmptyIff(value, ingredientIds, unitIds);
      r := Ok(Recipe(
        LinesOf(value["ingredients"].items),
        StringsOf(value["instructions"].items),
        value["name"].s,
        calories.i,
        imageUrl.s,
        time.i));
    }
  }

  /** The store writes the two handlers ask for; their definitions are not part of this model. */
  datatype RecipeWrite =
    | AddRecipe(recipe: Recipe)
    | UpdateRecipe(id: int, recipe: Recipe)

  /**
   * `Recipes.post`: validate, then add the recipe. The write happens only
   * for an accepted body and carries the defaulted fields; `writeRaises`
   * stands for the store call failing.
   */
  method Post(value: Body, ingredientIds: seq<int>, unitIds: seq<int>, writeRaises: bool)
    returns (write: Option<RecipeWrite>, response: Response)
    ensures write.Some? <==> ValidateRecipe(value, ingredientIds, unitIds).Ok?
    ensures write.Some? ==> write.value == AddRecipe(ValidateRecipe(value, ingredientIds, unitIds).value)
    ensures ValidateRecipe(value, ingredientIds, unitIds).Err? ==>
              response == BadRequest(ValidateRecipe(value, ingredientIds, unitIds).error)
    ensures ValidateRecipe(value, ingredientIds, unitIds).Ok? ==>
              response == if writeRaises then BadRequest("No recipe added.") else Accepted
  {
    var checked := CheckRecipe(value, ingredientIds, unitIds);
    match checked
    case Err(errorMsg) =>
      write, response := None, BadRequest(errorMsg);
    case Ok(recipe) =>
      write := Some(AddRecipe(recipe));
      response := if writeRaises then BadRequest("No recipe added.") else Accepted;
  }

  /** `Recipes.put`: the same validation as `post`, then update the recipe `id`. */
  method Put(id: int, value: Body, ingredientIds: seq<int>, unitIds: seq<int>, writeRaises: bool)
    returns (write: Option<RecipeWrite>, response: Response)
    ensures write.Some? <==> ValidateRecipe(value, ingredientIds, unitIds).Ok?
    ensures write.Some? ==> write.value == UpdateRecipe(id, ValidateRecipe(value, ingredientIds, unitIds).value)
    ensures ValidateRecipe(value, ingredientIds, unitIds).Err? ==>
              response == BadRequest(ValidateRecipe(value, ingredientIds, unitIds).error)
    ensures ValidateRecipe(value, ingredientIds, unitIds).Ok? ==>
              response == if writeRaises then BadRequest("No recipe updated.") else Accepted
  {
    var checked := CheckRecipe(value, ingredientIds, unitIds);
    match checked
    case Err(errorMsg) =>
      write, response := None, BadRequest(errorMsg);
    case Ok(recipe) =>
      write := Some(UpdateRecipe(id, recipe));
      response := if writeRaises then BadRequest("No recipe updated.") else Accepted;
  }
}
