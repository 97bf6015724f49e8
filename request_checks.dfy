/**
 * Field rules and message pieces that the create and update handlers of
 * every resource in RecipesPlusPlusApi/api.py share.
 */
module RequestChecks {
  import opened JsonValues

  /** A parsed request body: the JSON object's keys and values. */
  type Body = map<string, Json>

  /** Every validation message starts with this text. */
  const Prefix: string := "Please fix the following values: "
  const NameFragment: string := "name (str) "
  const ImageUrlFragment: string := "image_url (str) "

  /**
   * A required text field: present, not null, not "" and of type str.
   * The handlers reject exactly the bodies for which this is false.
   */
  predicate RequiredString(value: Body, key: string) {
    key in value && value[key].JString? && value[key].s != ""
  }

  /** An optional field that, when present, has type str. */
  predicate OptionalString(value: Body, key: string) {
    key !in value || value[key].JString?
  }

  /** An optional field that, when present, has type int (not bool). */
  predicate OptionalInt(value: Body, key: string) {
    key !in value || value[key].JInt?
  }

  /** The value of an optional str field, or its default when absent. */
  function StringOr(value: Body, key: string, default: string): string
    requires OptionalString(value, key)
  {
    if key in value then value[key].s else default
  }

  /** The value of an optional int field, or its default when absent. */
  function IntOr(value: Body, key: string, default: int): int
    requires OptionalInt(value, key)
  {
    if key in value then value[key].i else default
  }

  /** What a handler answers: `return True`, or `abort(400, message)`. */
  datatype Response = Accepted | BadRequest(message: string)

  /** The fragment for a required text field: empty exactly when the rule holds. */
  function NameErrors(value: Body): string {
    if RequiredString(value, "name") then "" else NameFragment
  }

  function ImageUrlErrors(value: Body): string {
    if OptionalString(value, "image_url") then "" else ImageUrlFragment
  }

  /**
   * The check of a required text field: when it is missing, null, the empty
   * string or not a str, raise the flag and append the field's fragment.
   */
  method CheckRequiredString(value: Body, key: string, fragment: string, isInvalid: bool, errorMsg: string)
    returns (isInvalid': bool, errorMsg': string)
    ensures isInvalid' == (isInvalid || !RequiredString(value, key))
    ensures errorMsg' == errorMsg + (if RequiredString(value, key) then "" else fragment)
  {
    isInvalid', errorMsg' := isInvalid, errorMsg;
    if key !in value || value[key] == JNull || value[key] == JString("") || !value[key].JString? {
      isInvalid' := true;
      errorMsg' := errorMsg' + fragment;
    }
  }

  /**
   * The check of an optional str field: when present, read it and, unless it
   * is a str, raise the flag and append the field's fragment; when absent,
   * use the default.
   */
  method CheckOptionalString(value: Body, key: string, default: string, fragment: string, isInvalid: bool, errorMsg: string)
    returns (field: Json, isInvalid': bool, errorMsg': string)
    ensures field == if key in value then value[key] else JString(default)
    ensures isInvalid' == (isInvalid || !OptionalString(value, key))
    ensures errorMsg' == errorMsg + (if OptionalString(value, key) then "" else fragment)
  {
    isInvalid', errorMsg' := isInvalid, errorMsg;
    if key in value {
      field := value[key];
      if !field.JString? {
        isInvalid' := true;
        errorMsg' := errorMsg' + fragment;
      }
    } else {
      field := JString(default);
    }
  }

  /** The check of an optional int field, as CheckOptionalString for type int. */
  method CheckOptionalInt(value: Body, key: string, default: int, fragment: string, isInvalid: bool, errorMsg: string)
    returns (field: Json, isInvalid': bool, errorMsg': string)
    ensures field == if key in value then value[key] else JInt(default)
    ensures isInvalid' == (isInvalid || !OptionalInt(value, key))
    ensures errorMsg' == errorMsg + (if OptionalInt(value, key) then "" else fragment)
  {
    isInvalid', errorMsg' := isInvalid, errorMsg;
    if key in value {
      field := value[key];
      if !field.JInt? {
        isInvalid' := true;
        errorMsg' := errorMsg' + fragment;
      }
    } else {
      field := JInt(default);
    }
  }

  /** Appending fragment by fragment builds the same text as appending them grouped. */
  lemma AppendAssoc(a: string, b: string, c: string)
    ensures (a + b) + c == a + (b + c)
  {
  }
}
