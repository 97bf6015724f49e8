/**
 * The create and update handlers of the Users resource in
 * RecipesPlusPlusApi/api.py. `post` and `put` run the same validation; it is
 * modelled once, by CheckUser, and specified by ValidateUser. The ids of the
 * stored recipes, which the handlers fetch from the store, are a parameter.
 */
module Users {
  import opened Wrappers
  import opened JsonValues
  import opened RequestChecks

  /** The fields an accepted body hands to the store, defaults filled in. */
  datatype User = User(email: string, name: string, recipes: seq<int>)

  const EmailFragment: string := "email (str) "
  const RecipesFragment: string := "recipes (list) "
  const RecipeIdTypeFragment: string := "recipes (list of int) "
  const RecipeIdMissingFragment: string := "recipes (recipe ID not valid) "
  const UserSuffix: string := "(optional: recipes (list))"

  function EmailErrors(value: Body): string {
    if RequiredString(value, "email") then "" else EmailFragment
  }

  /** A recipe reference the handlers accept: an int naming a stored recipe. */
  predicate ValidReference(item: Json, recipeIds: seq<int>) {
    item.JInt? && item.i in recipeIds
  }

  /**
   * The fragment one element of `recipes` contributes: the type check comes
   * first, and only an int is looked up among the stored recipes.
   */
  function ReferenceFragment(item: Json, recipeIds: seq<int>): string {
    if !item.JInt? then RecipeIdTypeFragment
    else if item.i !in recipeIds then RecipeIdMissingFragment
    else ""
  }

  /** The fragment of the first rejected element, if any: later elements are not examined. */
  function ReferenceScan(items: seq<Json>, recipeIds: seq<int>): string {
    if items == [] then ""
    else if ReferenceFragment(items[0], recipeIds) != "" then ReferenceFragment(items[0], recipeIds)
    else ReferenceScan(items[1..], recipeIds)
  }

  /** `recipes` may be absent; when present it must be a list of stored recipe ids. */
  function RecipesErrors(value: Body, recipeIds: seq<int>): string {
    if "recipes" !in value then ""
    else if !value["recipes"].JList? then RecipesFragment
    else ReferenceScan(value["recipes"].items, recipeIds)
  }

  /** The fragments in the fixed order email, name, recipes. */
  function UserErrors(value: Body, recipeIds: seq<int>): string {
    EmailErrors(value) + NameErrors(value) + RecipesErrors(value, recipeIds)
  }

  predicate AllInts(items: seq<Json>) {
    forall i :: 0 <= i < |items| ==> items[i].JInt?
  }

  function IntsOf(items: seq<Json>): (ints: seq<int>)
    requires AllInts(items)
  {
    seq(|items|, i requires 0 <= i < |items| && items[i].JInt? => items[i].i)
  }

  /** The recipes an accepted body lists: the list given, or [] when the key is absent. */
  function RecipesOr(value: Body): seq<Json> {
    if "recipes" in value && value["recipes"].JList? then value["recipes"].items else []
  }

  /** What validating a body yields: the user, or the message of the 400 answer. */
  function ValidateUser(value: Body, recipeIds: seq<int>): Result<User, string> {
    if UserErrors(value, recipeIds) == "" then
      ReferenceScanEmptyIff(RecipesOr(value), recipeIds);
      Ok(User(value["email"].s, value["name"].s, IntsOf(RecipesOr(value))))
    else
      Err(Prefix + UserErrors(value, recipeIds) + UserSuffix)
  }

  /** An element contributes no fragment exactly when it is accepted. */
  lemma ReferenceFragmentEmptyIff(item: Json, recipeIds: seq<int>)
    ensures ReferenceFragment(item, recipeIds) == "" <==> ValidReference(item, recipeIds)
  {
  }

  /** The scan reports nothing exactly when every element is accepted. */
  lemma {:induction false} ReferenceScanEmptyIff(items: seq<Json>, recipeIds: seq<int>)
    ensures ReferenceScan(items, recipeIds) == "" <==>
              forall i :: 0 <= i < |items| ==> ValidReference(items[i], recipeIds)
  {
    if items != [] {
      ReferenceFragmentEmptyIff(items[0], recipeIds);
      ReferenceScanEmptyIff(items[1..], recipeIds);
      assert forall i :: 1 <= i < |items| ==> items[i] == items[1..][i - 1];
    }
  }

  /**
   * The scan reports the fragment of the first rejected element and of no
   * other: a non-int there gives the type fragment whatever recipes are
   * stored, an unknown int the existence fragment.
   */
  lemma {:induction false} ReferenceScanReportsFirstRejected(items: seq<Json>, recipeIds: seq<int>, k: int)
    requires 0 <= k < |items|
    requires forall i :: 0 <= i < k ==> ValidReference(items[i], recipeIds)
    requires !ValidReference(items[k], recipeIds)
    ensures ReferenceScan(items, recipeIds) == ReferenceFragment(items[k], recipeIds)
    ensures !items[k].JInt? ==> ReferenceScan(items, recipeIds) == RecipeIdTypeFragment
    ensures items[k].JInt? ==> ReferenceScan(items, recipeIds) == RecipeIdMissingFragment
  {
    ReferenceFragmentEmptyIff(items[0], recipeIds);
    if k > 0 {
      ReferenceScanReportsFirstRejected(items[1..], recipeIds, k - 1);
    }
  }

  /** The rules a body must meet, field by field. */
  predicate UserAcceptable(value: Body, recipeIds: seq<int>) {
    && RequiredString(value, "email")
    && RequiredString(value, "name")
    && ("recipes" in value ==>
          value["recipes"].JList?
          && forall i :: 0 <= i < |value["recipes"].items| ==> ValidReference(value["recipes"].items[i], recipeIds))
  }

  /** The recipes slot is empty exactly when the recipes rule holds. */
  lemma RecipesErrorsEmptyIff(value: Body, recipeIds: seq<int>)
    ensures (RecipesErrors(value, recipeIds) == "") <==>
              ("recipes" in value ==>
                 value["recipes"].JList?
                 && forall i :: 0 <= i < |value["recipes"].items| ==> ValidReference(value["recipes"].items[i], recipeIds))
  {
    if "recipes" in value && value["recipes"].JList? {
      ReferenceScanEmptyIff(value["recipes"].items, recipeIds);
    }
  }

  /** A body is accepted exactly when it meets every field rule. */
  lemma UserAcceptedIff(value: Body, recipeIds: seq<int>)
    ensures ValidateUser(value, recipeIds).Ok? <==> UserAcceptable(value, recipeIds)
  {
    RecipesErrorsEmptyIff(value, recipeIds);
  }

  /**
   * An accepted body keeps its email, name and recipe ids, every one of them
   * a stored recipe; recipes defaults to [] when absent.
   */
  lemma UserAcceptedFields(value: Body, recipeIds: seq<int>, user: User)
    requires ValidateUser(value, recipeIds) == Ok(user)
    ensures UserAcceptable(value, recipeIds)
    ensures user.email != "" && value["email"] == JString(user.email)
    ensures user.name != "" && value["name"] == JString(user.name)
    ensures "recipes" !in value ==> user.recipes == []
    ensures "recipes" in value ==> |user.recipes| == |value["recipes"].items|
    ensures "recipes" in value ==> forall i :: 0 <= i < |user.recipes| ==>
              value["recipes"].items[i] == JInt(user.recipes[i])
    ensures forall i :: 0 <= i < |user.recipes| ==> user.recipes[i] in recipeIds
  {
    UserAcceptedIff(value, recipeIds);
  }

  /**
   * Errors accumulate: a rejection message is the prefix, then one slot per
   * field in the order email, name, recipes, then the optional-fields
   * suffix. The email and name slots are empty exactly when their field meets
   * its rule; for recipes, see RecipesErrorsEmptyIff.
   */
  lemma UserRejectionMessage(value: Body, recipeIds: seq<int>)
    ensures ValidateUser(value, recipeIds).Err? ==>
              ValidateUser(value, recipeIds).error
              == Prefix + (EmailErrors(value) + NameErrors(value) + RecipesErrors(value, recipeIds)) + UserSuffix
    ensures (EmailErrors(value) == "") <==> RequiredString(value, "email")
    ensures (NameErrors(value) == "") <==> RequiredString(value, "name")
  {
  }

  /** The body that carries a user's fields. */
  function UserBody(user: User): Body {
    map[
      "email" := JString(user.email),
      "name" := JString(user.name),
      "recipes" := JList(seq(|user.recipes|, i requires 0 <= i < |user.recipes| => JInt(user.recipes[i])))]
  }

  /**
   * Writing a user back as a body and validating it again gives the same
   * user, provided its email and name are not empty and it lists only
   * stored recipes.
   */
  lemma UserRoundTrip(user: User, recipeIds: seq<int>)
    requires user.email != "" && user.name != ""
    requires forall i :: 0 <= i < |user.recipes| ==> user.recipes[i] in recipeIds
    ensures ValidateUser(UserBody(user), recipeIds) == Ok(user)
  {
    var value := UserBody(user);
    var items := value["recipes"].items;
    assert forall i :: 0 <= i < |items| ==> items[i] == JInt(user.recipes[i]);
    assert UserAcceptable(value, recipeIds);
    UserAcceptedIff(value, recipeIds);
    var u := ValidateUser(value, recipeIds).value;
    UserAcceptedFields(value, recipeIds, u);
    assert u.recipes == user.recipes;
  }

  /**
   * The loop over the listed recipes: the first element that is not an int,
   * or names no stored recipe, appends its fragment and ends the loop.
   */
  method ScanReferences(recipes: seq<Json>, recipeIds: seq<int>) returns (fragment: string)
    ensures fragment == ReferenceScan(recipes, recipeIds)
  {
    for n := 0 to |recipes|
      invariant forall i :: 0 <= i < n ==> ValidReference(recipes[i], recipeIds)
    {
      var recipeId := recipes[n];
      if !recipeId.JInt? {
        ReferenceScanReportsFirstRejected(recipes, recipeIds, n);
        return RecipeIdTypeFragment;
      }
      if recipeId.i !in recipeIds {
        ReferenceScanReportsFirstRejected(recipes, recipeIds, n);
        return RecipeIdMissingFragment;
      }
    }
    ReferenceScanEmptyIff(recipes, recipeIds);
    fragment := "";
  }

  /**
   * The validation block of `Users.post` and `Users.put`: email, name and
   * recipes in turn raise the flag and append their fragment, then the
   * optional-fields suffix, then the user or the message.
   */
  method CheckUser(value: Body, recipeIds: seq<int>) returns (r: Result<User, string>)
    ensures r == ValidateUser(value, recipeIds)
  {
    var isInvalid := false;
    var errorMsg := Prefix;
    ghost var errors := "";

    isInvalid, errorMsg := CheckRequiredString(value, "email", EmailFragment, isInvalid, errorMsg);
    errors := EmailErrors(value);

    isInvalid, errorMsg := CheckRequiredString(value, "name", NameFragment, isInvalid, errorMsg);
    AppendAssoc(Prefix, errors, NameErrors(value));
    errors := errors + NameErrors(value);

    var recipes: seq<Json> := [];
    if "recipes" in value {
      if !value["recipes"].JList? {
        isInvalid := true;
        errorMsg := errorMsg + RecipesFragment;
      } else {
        recipes := value["recipes"].items;
        var fragment := ScanReferences(recipes, recipeIds);
        if fragment != "" {
          isInvalid := true;
        }
        errorMsg := errorMsg + fragment;
      }
    }
    AppendAssoc(Prefix, errors, RecipesErrors(value, recipeIds));
    errors := errors + RecipesErrors(value, recipeIds);
    assert errorMsg == Prefix + errors && isInvalid == (errors != "");

    errorMsg := errorMsg + UserSuffix;
    if isInvalid {
      r := Err(errorMsg);
    } else {
      RecipesErrorsEmptyIff(value, recipeIds);
      assert recipes == RecipesOr(value);
      ReferenceScanEmptyIff(recipes, recipeIds);
      r := Ok(User(value["email"].s, value["name"].s, IntsOf(recipes)));
    }
  }

  /** The store writes the two handlers ask for; their definitions are not part of this model. */
  datatype UserWrite =
    | AddUser(user: User)
    | UpdateUser(id: int, user: User)

  /**
   * `Users.post`: validate, then add the user. The write happens only for an
   * accepted body and carries the defaulted recipes; `writeRaises` stands
   * for the store call failing.
   */
  method Post(value: Body, recipeIds: seq<int>, writeRaises: bool)
    returns (write: Option<UserWrite>, response: Response)
    ensures write.Some? <==> ValidateUser(value, recipeIds).Ok?
    ensures write.Some? ==> write.value == AddUser(ValidateUser(value, recipeIds).value)
    ensures ValidateUser(value, recipeIds).Err? ==> response == BadRequest(ValidateUser(value, recipeIds).error)
    ensures ValidateUser(value, recipeIds).Ok? ==>
              response == if writeRaises then BadRequest("No user added.") else Accepted
  {
    var checked := CheckUser(value, recipeIds);
    match checked
    case Err(errorMsg) =>
      write, response := None, BadRequest(errorMsg);
    case Ok(user) =>
      write := Some(AddUser(user));
      response := if writeRaises then BadRequest("No user added.") else Accepted;
  }

  /** `Users.put`: the same validation as `post`, then update the user `id`. */
  method Put(id: int, value: Body, recipeIds: seq<int>, writeRaises: bool)
    returns (write: Option<UserWrite>, response: Response)
    ensures write.Some? <==> ValidateUser(value, recipeIds).Ok?
    ensures write.Some? ==> write.value == UpdateUser(id, ValidateUser(value, recipeIds).value)
    ensures ValidateUser(value, recipeIds).Err? ==> response == BadRequest(ValidateUser(value, recipeIds).error)
    ensures ValidateUser(value, recipeIds).Ok? ==>
              response == if writeRaises then BadRequest("No user updated.") else Accepted
  {
    var checked := CheckUser(value, recipeIds);
    match checked
    case Err(errorMsg) =>
      write, response := None, BadRequest(errorMsg);
    case Ok(user) =>
      write := Some(UpdateUser(id, user));
      response := if writeRaises then BadRequest("No user updated.") else Accepted;
  }
}
