/** The response validator: a constant JSON Schema, checked with the
    keyword semantics of JSON Schema Validation draft 2020-12 (section 6.1.1
    `type`, 6.2.2 `maximum`, 6.2.4 `minimum`, 6.3.1 `maxLength`, 6.5.3
    `required`) and of JSON Schema Core draft 2020-12 (10.2.1.2 `anyOf`,
    10.3.1.2 `items`, 10.3.2.1 `properties`). */
module Validation {
  import opened Wrappers
  import opened Json

  /** The primitive types of section 6.1.1. */
  datatype InstanceType = ObjectType | ArrayType | StringType | IntegerType | NumberType | BooleanType | NullType

  /** The keywords the schema uses; an absent keyword is `None` or empty.
      (An empty `anyOf` is not a legal schema, so empty means absent.) */
  datatype Schema = Schema(
    typ: Option<InstanceType>,
    maxLength: Option<nat>,
    minimum: Option<int>,
    maximum: Option<int>,
    items: Option<Schema>,
    properties: seq<(string, Schema)>,
    required: seq<string>,
    anyOf: seq<Schema>)

  const NoKeywords := Schema(None, None, None, None, None, [], [], [])

  predicate IsNumber(j: Json) { j.JInt? || j.JFloat? }

  function NumberValue(j: Json): real
    requires IsNumber(j)
  {
    if j.JInt? then j.i as real else j.r
  }

  /** Type membership. Booleans are neither integers nor numbers, and a float
      with a zero fractional part is an integer. */
  predicate HasType(j: Json, t: InstanceType) {
    match t
    case ObjectType => j.JObject?
    case ArrayType => j.JArray?
    case StringType => j.JString?
    case IntegerType => j.JInt? || (j.JFloat? && j.r == j.r.Floor as real)
    case NumberType => IsNumber(j)
    case BooleanType => j.JBool?
    case NullType => j.JNull?
  }

  /** Whether instance `j` is valid against schema `s`. Every keyword only
      constrains the instance types it applies to. */
  predicate Valid(j: Json, s: Schema)
    decreases s
  {
    && (s.typ.Some? ==> HasType(j, s.typ.value))
    && (s.maxLength.Some? && j.JString? ==> |j.s| <= s.maxLength.value)
    && (s.minimum.Some? && IsNumber(j) ==> NumberValue(j) >= s.minimum.value as real)
    && (s.maximum.Some? && IsNumber(j) ==> NumberValue(j) <= s.maximum.value as real)
    && (s.items.Some? && j.JArray? ==>
          forall k :: 0 <= k < |j.items| ==> Valid(j.items[k], s.items.value))
    && (j.JObject? ==>
          forall p :: 0 <= p < |s.properties| ==>
            var v := Get(j.fields, s.properties[p].0);
            v.Some? ==> Valid(v.value, s.properties[p].1))
    && (j.JObject? ==>
          forall q :: 0 <= q < |s.required| ==> Get(j.fields, s.required[q]).Some?)
    && (|s.anyOf| > 0 ==> exists a :: 0 <= a < |s.anyOf| && Valid(j, s.anyOf[a]))
  }

  const TitleSchema := NoKeywords.(typ := Some(StringType), maxLength := Some(200))
  const DescriptionSchema := NoKeywords.(typ := Some(StringType), maxLength := Some(2000))
  const PrioritySchema := NoKeywords.(typ := Some(IntegerType), minimum := Some(1), maximum := Some(4))
  const StringListSchema := NoKeywords.(typ := Some(ArrayType), items := Some(NoKeywords.(typ := Some(StringType))))
  const FlagSchema := NoKeywords.(typ := Some(BooleanType))

  /** `OPENAI_RESPONSE_SCHEMA`. */
  const ResponseSchema := NoKeywords.(
    typ := Some(ObjectType),
    properties := [
      ("title", TitleSchema),
      ("description", DescriptionSchema),
      ("priority", PrioritySchema),
      ("labels", StringListSchema),
      ("related_messages", StringListSchema),
      ("no_issue", FlagSchema)],
    anyOf := [
      NoKeywords.(required := ["title", "description", "priority"]),
      NoKeywords.(required := ["no_issue"])])

  /** `validate_openai_response`: a validation error is reported as false. */
  function ValidateOpenAiResponse(response: Json): bool {
    Valid(response, ResponseSchema)
  }

  // An independent, field-by-field reading of the schema.

  predicate Present(fields: seq<(string, Json)>, key: string) {
    Get(fields, key).Some?
  }

  predicate StringUpTo(v: Json, n: nat) { v.JString? && |v.s| <= n }

  predicate IntegerIn(v: Json, lo: int, hi: int) {
    HasType(v, IntegerType) && lo as real <= NumberValue(v) <= hi as real
  }

  predicate AllStrings(v: Json) {
    v.JArray? && forall k :: 0 <= k < |v.items| ==> v.items[k].JString?
  }

  /** Each known key, if present, holds a value of its declared shape. */
  predicate KnownKeysWellTyped(fields: seq<(string, Json)>) {
    && (Present(fields, "title") ==> StringUpTo(Get(fields, "title").value, 200))
    && (Present(fields, "description") ==> StringUpTo(Get(fields, "description").value, 2000))
    && (Present(fields, "priority") ==> IntegerIn(Get(fields, "priority").value, 1, 4))
    && (Present(fields, "labels") ==> AllStrings(Get(fields, "labels").value))
    && (Present(fields, "related_messages") ==> AllStrings(Get(fields, "related_messages").value))
    && (Present(fields, "no_issue") ==> Get(fields, "no_issue").value.JBool?)
  }

  /** Either an issue (title, description and priority) or an explicit `no_issue`. */
  predicate HasRequiredGroup(fields: seq<(string, Json)>) {
    (Present(fields, "title") && Present(fields, "description") && Present(fields, "priority"))
    || Present(fields, "no_issue")
  }

  lemma StringListValid(v: Json)
    ensures Valid(v, StringListSchema) <==> AllStrings(v)
  {
    var elem := NoKeywords.(typ := Some(StringType));
    if v.JArray? {
      assert (forall k :: 0 <= k < |v.items| ==> Valid(v.items[k], elem))
          <==> (forall k :: 0 <= k < |v.items| ==> v.items[k].JString?);
    }
  }

  /** What each property's subschema accepts. */
  lemma PropertySchemasValid(v: Json)
    ensures Valid(v, TitleSchema) <==> StringUpTo(v, 200)
    ensures Valid(v, DescriptionSchema) <==> StringUpTo(v, 2000)
    ensures Valid(v, PrioritySchema) <==> IntegerIn(v, 1, 4)
    ensures Valid(v, StringListSchema) <==> AllStrings(v)
    ensures Valid(v, FlagSchema) <==> v.JBool?
  {
    StringListValid(v);
  }

  /** The `properties` keyword of the response schema, on an object's fields. */
  predicate PropertiesHold(fields: seq<(string, Json)>) {
    forall p :: 0 <= p < |ResponseSchema.properties| ==>
      var v := Get(fields, ResponseSchema.properties[p].0);
      v.Some? ==> Valid(v.value, ResponseSchema.properties[p].1)
  }

  /** The `properties` keyword of the response schema holds exactly when every
      known key that is present is well typed. */
  lemma PropertiesCharacterization(fields: seq<(string, Json)>)
    ensures PropertiesHold(fields) <==> KnownKeysWellTyped(fields)
  {
    var props := ResponseSchema.properties;
    assert props[0] == ("title", TitleSchema);
    assert props[1] == ("description", DescriptionSchema);
    assert props[2] == ("priority", PrioritySchema);
    assert props[3] == ("labels", StringListSchema);
    assert props[4] == ("related_messages", StringListSchema);
    assert props[5] == ("no_issue", FlagSchema);
    forall p | 0 <= p < |props| && Get(fields, props[p].0).Some? {
      PropertySchemasValid(Get(fields, props[p].0).value);
    }
    if KnownKeysWellTyped(fields) {
      forall p | 0 <= p < |props| && Get(fields, props[p].0).Some?
        ensures Valid(Get(fields, props[p].0).value, props[p].1)
      {
        PropertySchemasValid(Get(fields, props[p].0).value);
        assert p == 0 || p == 1 || p == 2 || p == 3 || p == 4 || p == 5;
      }
    }
  }

  /** The `anyOf` keyword of the response schema holds exactly when one of the
      two required groups is present. */
  lemma AnyOfCharacterization(response: Json)
    requires response.JObject?
    ensures (exists a :: 0 <= a < |ResponseSchema.anyOf| && Valid(response, ResponseSchema.anyOf[a]))
            <==> HasRequiredGroup(response.fields)
  {
    var f := response.fields;
    var groups := ResponseSchema.anyOf;
    var issue := groups[0].required;
    assert issue == ["title", "description", "priority"];
    assert (forall q :: 0 <= q < |issue| ==> Get(f, issue[q]).Some?)
        <==> Present(f, issue[0]) && Present(f, issue[1]) && Present(f, issue[2]);
    assert Valid(response, groups[0]) <==> Present(f, "title") && Present(f, "description") && Present(f, "priority");
    var flag := groups[1].required;
    assert flag == ["no_issue"];
    assert (forall q :: 0 <= q < |flag| ==> Get(f, flag[q]).Some?) <==> Present(f, flag[0]);
    assert Valid(response, groups[1]) <==> Present(f, "no_issue");
  }

  /** The validator accepts exactly the objects whose known keys are well typed
      and that carry one of the two required groups; other keys are ignored. */
  lemma ValidateCharacterization(response: Json)
    ensures ValidateOpenAiResponse(response)
            <==> response.JObject?
                 && KnownKeysWellTyped(response.fields)
                 && HasRequiredGroup(response.fields)
  {
    if response.JObject? {
      PropertiesCharacterization(response.fields);
      AnyOfCharacterization(response);
      assert Valid(response, ResponseSchema)
          <==> PropertiesHold(response.fields)
               && (exists a :: 0 <= a < |ResponseSchema.anyOf| && Valid(response, ResponseSchema.anyOf[a]));
    }
  }

  /** A complete issue (title, description and priority within their bounds) validates. */
  lemma IssueAccepted(title: string, description: string, priority: int)
    requires |title| <= 200 && |description| <= 2000 && 1 <= priority <= 4
    ensures ValidateOpenAiResponse(JObject([
              ("title", JString(title)),
              ("description", JString(description)),
              ("priority", JInt(priority))]))
  {
    var response := JObject([
      ("title", JString(title)),
      ("description", JString(description)),
      ("priority", JInt(priority))]);
    var f := response.fields;
    assert DistinctKeys(f);
    GetDistinct(f, 0);
    GetDistinct(f, 1);
    GetDistinct(f, 2);
    assert forall i :: 0 <= i < |f| ==>
      f[i].0 != "labels" && f[i].0 != "related_messages" && f[i].0 != "no_issue";
    assert KnownKeysWellTyped(f) && HasRequiredGroup(f);
    ValidateCharacterization(response);
  }

  /** An explicit boolean `no_issue` validates on its own, without a title. */
  lemma NoIssueAccepted(flag: bool)
    ensures ValidateOpenAiResponse(JObject([("no_issue", JBool(flag))]))
  {
    ValidateCharacterization(JObject([("no_issue", JBool(flag))]));
  }

  /** An object with neither required group is rejected. */
  lemma NoGroupRejected(response: Json)
    requires response.JObject? && !HasRequiredGroup(response.fields)
    ensures !ValidateOpenAiResponse(response)
  {
    ValidateCharacterization(response);
  }

  /** A present priority that is not an integer in 1..4 is rejected. */
  lemma BadPriorityRejected(response: Json)
    requires response.JObject? && Present(response.fields, "priority")
    requires !IntegerIn(Get(response.fields, "priority").value, 1, 4)
    ensures !ValidateOpenAiResponse(response)
  {
    ValidateCharacterization(response);
  }

  /** A present title over 200 characters or description over 2000 is rejected. */
  lemma OverlongTextRejected(response: Json)
    requires response.JObject?
    requires || (Present(response.fields, "title") && !StringUpTo(Get(response.fields, "title").value, 200))
             || (Present(response.fields, "description") && !StringUpTo(Get(response.fields, "description").value, 2000))
    ensures !ValidateOpenAiResponse(response)
  {
    ValidateCharacterization(response);
  }

  /** A `labels` or `related_messages` list holding a non-string is rejected. */
  lemma NonStringListEntryRejected(response: Json, key: string, k: nat)
    requires response.JObject? && (key == "labels" || key == "related_messages")
    requires Present(response.fields, key)
    requires var v := Get(response.fields, key).value;
             v.JArray? && k < |v.items| && !v.items[k].JString?
    ensures !ValidateOpenAiResponse(response)
  {
    ValidateCharacterization(response);
  }
}
