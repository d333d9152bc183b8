/**
 * The JSON converter the schema generator registers for OpenAPI schemas. It
 * writes a schema as one JSON object holding only the keys that carry
 * information, in a fixed order: "type", "nullable" (left out for strings),
 * "additionalProperties" (only when it is false), "required" and
 * "properties" (only when non-empty). Nested property schemas go through the
 * same converter. Reading a schema back is not supported.
 */
module OpenApiSchemaConverter {
  import opened Common
  import opened JsonTokens

  /**
   * The fields of an OpenAPI schema the converter looks at. `required` is a
   * set, given here in its iteration order; a null dictionary and an empty
   * one are told apart, as in the source object.
   */
  datatype Schema = Schema(
    typeName: Option<string>,
    nullable: bool,
    additionalPropertiesAllowed: bool,
    required: Option<seq<string>>,
    properties: PropertyDictionary)

  datatype Property = Property(name: string, schema: Schema)

  datatype PropertyDictionary = NullDictionary | Dictionary(entries: seq<Property>)

  /** A schema with every field at its default (`AdditionalPropertiesAllowed` defaults to true). */
  const DefaultSchema: Schema := Schema(None, false, true, None, NullDictionary)

  function PropertyCount(s: Schema): nat {
    if s.properties.Dictionary? then |s.properties.entries| else 0
  }

  predicate WritesNullable(s: Schema) {
    s.nullable && s.typeName != Some("string")
  }

  predicate HasRequired(s: Schema) {
    s.required.Some? && |s.required.value| > 0
  }

  predicate HasProperties(s: Schema) {
    s.properties.Dictionary? && |s.properties.entries| > 0
  }

  // ---------------------------------------------------------------------
  // What the converter writes

  function Strings(items: seq<string>): seq<Token> {
    seq(|items|, i requires 0 <= i < |items| => StringValue(items[i]))
  }

  /** A set of strings as the serializer writes it: an array of string values. */
  function StringArray(items: seq<string>): seq<Token> {
    [StartArray] + Strings(items) + [EndArray]
  }

  /** The tokens of a non-null schema. */
  function ObjectTokens(s: Schema): seq<Token>
    decreases s, PropertyCount(s) + 4
  {
    [StartObject] + Members(s) + [EndObject]
  }

  function Members(s: Schema): seq<Token>
    decreases s, PropertyCount(s) + 3
  {
    TypeMember(s) + NullableMember(s) + AdditionalPropertiesMember(s) + RequiredMember(s) + PropertiesMember(s)
  }

  function TypeMember(s: Schema): seq<Token> {
    if s.typeName.Some? then [PropertyName("type"), StringValue(s.typeName.value)] else []
  }

  function NullableMember(s: Schema): seq<Token> {
    if WritesNullable(s) then [PropertyName("nullable"), BoolValue(true)] else []
  }

  function AdditionalPropertiesMember(s: Schema): seq<Token> {
    if !s.additionalPropertiesAllowed then [PropertyName("additionalProperties"), BoolValue(false)] else []
  }

  function RequiredMember(s: Schema): seq<Token> {
    if HasRequired(s) then [PropertyName("required")] + StringArray(s.required.value) else []
  }

  function PropertiesMember(s: Schema): seq<Token>
    decreases s, PropertyCount(s) + 2
  {
    if HasProperties(s) then [PropertyName("properties")] + DictionaryTokens(s) else []
  }

  /** The property dictionary as the serializer writes it: one member per entry, each value through the converter. */
  function DictionaryTokens(s: Schema): seq<Token>
    requires s.properties.Dictionary?
    decreases s, PropertyCount(s) + 1
  {
    [StartObject] + Entries(s, |s.properties.entries|) + [EndObject]
  }

  /** The first `n` entries of the property dictionary. */
  function Entries(s: Schema, n: nat): seq<Token>
    requires s.properties.Dictionary? && n <= |s.properties.entries|
    decreases s, n
  {
    if n == 0 then []
    else
      var entry := s.properties.entries[n - 1];
      assert entry in s.properties.entries;
      Entries(s, n - 1) + [PropertyName(entry.name)] + ObjectTokens(entry.schema)
  }

  /** `WriteJson` as a function: the tokens written for a schema, or for null. */
  function Serialize(value: Option<Schema>): (r: seq<Token>)
    ensures value.None? ==> r == [Null]
    ensures value.Some? ==> |r| >= 2 && r[0] == StartObject && r[|r| - 1] == EndObject
    ensures Balanced(r)
  {
    match value
    case None => [Null]
    case Some(s) =>
      ObjectNeutral(s);
      ObjectTokens(s)
  }

  // ---------------------------------------------------------------------
  // The converter, writing token by token

  /** `WriteJson(writer, value, serializer)`. */
  method WriteJson(writer: JsonWriter, value: Option<Schema>)
    modifies writer
    ensures writer.tokens == old(writer.tokens) + Serialize(value)
    decreases if value.Some? then value.value else DefaultSchema, 3
  {
    if value.None? {
      writer.WriteNull();
      return;
    }
    var s := value.value;
    ghost var before := writer.tokens;
    writer.WriteStartObject();
    WriteMembers(writer, s);
    writer.WriteEndObject();
    AppendObject(before, s);
  }

  /** The members `WriteJson` writes for a non-null schema, each only when it carries information. */
  method WriteMembers(writer: JsonWriter, s: Schema)
    modifies writer
    ensures writer.tokens == old(writer.tokens) + Members(s)
    decreases s, 2
  {
    ghost var t0 := writer.tokens;
    WriteTypeMember(writer, s);
    ghost var t1 := writer.tokens;
    WriteNullableMember(writer, s);
    ghost var t2 := writer.tokens;
    WriteAdditionalPropertiesMember(writer, s);
    ghost var t3 := writer.tokens;
    WriteRequiredMember(writer, s);
    ghost var t4 := writer.tokens;
    WritePropertiesMember(writer, s);
    MembersInSteps(s, t0, t1, t2, t3, t4, writer.tokens);
  }

  /** "type", when a type is set. */
  method WriteTypeMember(writer: JsonWriter, s: Schema)
    modifies writer
    ensures writer.tokens == old(writer.tokens) + TypeMember(s)
  {
    if s.typeName.Some? {
      writer.WritePropertyName("type");
      writer.WriteString(s.typeName.value);
    }
  }

  /** "nullable", for a nullable schema that is not a string. */
  method WriteNullableMember(writer: JsonWriter, s: Schema)
    modifies writer
    ensures writer.tokens == old(writer.tokens) + NullableMember(s)
  {
    if s.nullable && s.typeName != Some("string") {
      writer.WritePropertyName("nullable");
      writer.WriteBool(s.nullable);
    }
  }

  /** "additionalProperties", only when they are not allowed. */
  method WriteAdditionalPropertiesMember(writer: JsonWriter, s: Schema)
    modifies writer
    ensures writer.tokens == old(writer.tokens) + AdditionalPropertiesMember(s)
  {
    if !s.additionalPropertiesAllowed {
      writer.WritePropertyName("additionalProperties");
      writer.WriteBool(s.additionalPropertiesAllowed);
    }
  }

  /** "required", when the set is non-null and non-empty. */
  method WriteRequiredMember(writer: JsonWriter, s: Schema)
    modifies writer
    ensures writer.tokens == old(writer.tokens) + RequiredMember(s)
  {
    if s.required.Some? && |s.required.value| > 0 {
      writer.WritePropertyName("required");
      WriteStringSet(writer, s.required.value);
    }
  }

  /** "properties", when the dictionary is non-null and non-empty; each value goes back through the converter. */
  method WritePropertiesMember(writer: JsonWriter, s: Schema)
    modifies writer
    ensures writer.tokens == old(writer.tokens) + PropertiesMember(s)
    decreases s, 1
  {
    if s.properties.Dictionary? && |s.properties.entries| > 0 {
      writer.WritePropertyName("properties");
      WriteDictionary(writer, s);
    }
  }

  /** Chains the five conditional writes of `WriteMembers` into `Members(s)`. */
  lemma MembersInSteps(s: Schema, t0: seq<Token>, t1: seq<Token>, t2: seq<Token>, t3: seq<Token>, t4: seq<Token>, t5: seq<Token>)
    requires t1 == t0 + TypeMember(s) && t2 == t1 + NullableMember(s) && t3 == t2 + AdditionalPropertiesMember(s)
    requires t4 == t3 + RequiredMember(s) && t5 == t4 + PropertiesMember(s)
    ensures t5 == t0 + Members(s)
  {
    AppendMembers(t0, s);
  }

  /** Re-associates the object around a prefix; a solver hint without which `WriteJson` runs out of resource. */
  lemma AppendObject(prefix: seq<Token>, s: Schema)
    ensures prefix + ObjectTokens(s) == prefix + [StartObject] + Members(s) + [EndObject]
  {
    var m := Members(s);
    calc {
      prefix + ([StartObject] + m + [EndObject]);
      prefix + [StartObject] + m + [EndObject];
    }
  }

  /** Re-associates the five members after a prefix; a solver hint for `MembersInSteps`. */
  lemma AppendMembers(prefix: seq<Token>, s: Schema)
    ensures prefix + Members(s) ==
      prefix + TypeMember(s) + NullableMember(s) + AdditionalPropertiesMember(s) + RequiredMember(s) + PropertiesMember(s)
  {
    var t, n, a, r, p := TypeMember(s), NullableMember(s), AdditionalPropertiesMember(s), RequiredMember(s), PropertiesMember(s);
    calc {
      prefix + Members(s);
      prefix + (t + n + a + r + p);
      prefix + t + n + a + r + p;
    }
  }

  /** The serializer writing the `Required` set. */
  method WriteStringSet(writer: JsonWriter, items: seq<string>)
    modifies writer
    ensures writer.tokens == old(writer.tokens) + StringArray(items)
  {
    writer.WriteStartArray();
    var i := 0;
    while i < |items|
      invariant 0 <= i <= |items|
      invariant writer.tokens == old(writer.tokens) + [StartArray] + Strings(items[..i])
    {
      assert Strings(items[..i + 1]) == Strings(items[..i]) + [StringValue(items[i])];
      writer.WriteString(items[i]);
      i := i + 1;
    }
    assert items[..i] == items;
    writer.WriteEndArray();
  }

  /** The serializer writing the `Properties` dictionary, handing every value back to the converter. */
  method WriteDictionary(writer: JsonWriter, s: Schema)
    requires s.properties.Dictionary?
    modifies writer
    ensures writer.tokens == old(writer.tokens) + DictionaryTokens(s)
    decreases s, 0
  {
    var entries := s.properties.entries;
    writer.WriteStartObject();
    var i := 0;
    while i < |entries|
      invariant 0 <= i <= |entries|
      invariant writer.tokens == old(writer.tokens) + [StartObject] + Entries(s, i)
    {
      assert entries[i] in entries;
      writer.WritePropertyName(entries[i].name);
      WriteJson(writer, Some(entries[i].schema));
      i := i + 1;
    }
    writer.WriteEndObject();
  }

  /** `ReadJson`: deserialisation is not implemented and always throws. */
  function ReadJson(tokens: seq<Token>, existingValue: Option<Schema>): (r: Reply<Schema>)
    ensures r == Failed(OtherException)
  {
    Failed(OtherException)
  }

  // ---------------------------------------------------------------------
  // Which members the object holds

  /** The five keys the converter may write, in the order it writes them. */
  const MemberKeys: seq<string> := ["type", "nullable", "additionalProperties", "required", "properties"]

  /** A key's place in `MemberKeys` (5 for any other key). */
  function KeyRank(key: string): (r: nat)
    ensures r < 5 ==> MemberKeys[r] == key
    ensures key in MemberKeys ==> r < 5
  {
    if key == "type" then 0
    else if key == "nullable" then 1
    else if key == "additionalProperties" then 2
    else if key == "required" then 3
    else if key == "properties" then 4
    else 5
  }

  function Optional(present: bool, key: string, first: Token): seq<(string, Token)> {
    if present then [(key, first)] else []
  }

  /**
   * The members of a schema's object, each with the token its value starts
   * with: a string for "type", `true` for "nullable", `false` for
   * "additionalProperties", an array for "required", an object for
   * "properties".
   */
  function MemberList(s: Schema): seq<(string, Token)> {
    TypeEntry(s) + (NullableEntry(s) + (AdditionalPropertiesEntry(s) + (RequiredEntry(s) + PropertiesEntry(s))))
  }

  function TypeEntry(s: Schema): seq<(string, Token)> {
    if s.typeName.Some? then [("type", StringValue(s.typeName.value))] else []
  }

  function NullableEntry(s: Schema): seq<(string, Token)> {
    Optional(WritesNullable(s), "nullable", BoolValue(true))
  }

  function AdditionalPropertiesEntry(s: Schema): seq<(string, Token)> {
    Optional(!s.additionalPropertiesAllowed, "additionalProperties", BoolValue(false))
  }

  function RequiredEntry(s: Schema): seq<(string, Token)> {
    Optional(HasRequired(s), "required", StartArray)
  }

  function PropertiesEntry(s: Schema): seq<(string, Token)> {
    Optional(HasProperties(s), "properties", StartObject)
  }

  /** Keys strictly ascending in `MemberKeys` order, all of them from `MemberKeys`. */
  predicate InKeyOrder(members: seq<(string, Token)>) {
    && (forall i :: 0 <= i < |members| ==> members[i].0 in MemberKeys)
    && (forall i, j :: 0 <= i < j < |members| ==> KeyRank(members[i].0) < KeyRank(members[j].0))
  }

  /** A part of the member list seen at depth 1: its name/first-token pairs, and no change of depth. */
  predicate ShowsAtDepthOne(part: seq<Token>, members: seq<(string, Token)>) {
    Shallow(part, 1) == Flatten(members) && Depth(part) == 0
  }

  lemma JoinParts(x: seq<Token>, xs: seq<(string, Token)>, y: seq<Token>, ys: seq<(string, Token)>)
    requires ShowsAtDepthOne(x, xs) && ShowsAtDepthOne(y, ys)
    ensures ShowsAtDepthOne(x + y, xs + ys)
  {
    ShallowAppend(x, y, 1);
    DepthAppend(x, y);
    FlattenAppend(xs, ys);
  }

  lemma ScalarPart(part: seq<Token>, members: seq<(string, Token)>)
    requires forall i :: 0 <= i < |part| ==> !IsContainerToken(part[i])
    requires part == Flatten(members)
    ensures ShowsAtDepthOne(part, members)
  {
    ShallowScalars(part);
  }

  /** A member whose value is a container: the name, then the opening token. */
  lemma ContainerPart(key: string, open: Token, inner: seq<Token>, close: Token)
    requires (open, close) == (StartObject, EndObject) || (open, close) == (StartArray, EndArray)
    requires Neutral(inner)
    ensures ShowsAtDepthOne([PropertyName(key)] + ([open] + inner + [close]), [(key, open)])
  {
    var value := [open] + inner + [close];
    ShallowContainer(open, inner, close);
    ShallowAppend([PropertyName(key)], value, 1);
    DepthAppend([PropertyName(key)], value);
  }

  lemma ScalarsShow(s: Schema)
    ensures ShowsAtDepthOne(TypeMember(s), TypeEntry(s))
    ensures ShowsAtDepthOne(NullableMember(s), NullableEntry(s))
    ensures ShowsAtDepthOne(AdditionalPropertiesMember(s), AdditionalPropertiesEntry(s))
  {
    ScalarPart(TypeMember(s), TypeEntry(s));
    ScalarPart(NullableMember(s), NullableEntry(s));
    ScalarPart(AdditionalPropertiesMember(s), AdditionalPropertiesEntry(s));
  }

  lemma RequiredShows(s: Schema)
    ensures ShowsAtDepthOne(RequiredMember(s), RequiredEntry(s))
  {
    if HasRequired(s) {
      NeutralScalars(Strings(s.required.value));
      ContainerPart("required", StartArray, Strings(s.required.value), EndArray);
      assert RequiredMember(s) == [PropertyName("required")] + ([StartArray] + Strings(s.required.value) + [EndArray]);
    } else {
      ScalarPart(RequiredMember(s), RequiredEntry(s));
    }
  }

  lemma PropertiesShows(s: Schema)
    ensures ShowsAtDepthOne(PropertiesMember(s), PropertiesEntry(s))
  {
    if HasProperties(s) {
      EntriesNeutral(s, |s.properties.entries|);
      ContainerPart("properties", StartObject, Entries(s, |s.properties.entries|), EndObject);
      assert PropertiesMember(s) == [PropertyName("properties")] + DictionaryTokens(s);
      assert DictionaryTokens(s) == [StartObject] + Entries(s, |s.properties.entries|) + [EndObject];
    } else {
      ScalarPart(PropertiesMember(s), PropertiesEntry(s));
    }
  }

  lemma MembersShowList(s: Schema)
    ensures ShowsAtDepthOne(Members(s), MemberList(s))
  {
    var t, n, a, r, p := TypeMember(s), NullableMember(s), AdditionalPropertiesMember(s), RequiredMember(s), PropertiesMember(s);
    var tl, nl, al, rl, pl := TypeEntry(s), NullableEntry(s), AdditionalPropertiesEntry(s), RequiredEntry(s), PropertiesEntry(s);
    ScalarsShow(s);
    RequiredShows(s);
    PropertiesShows(s);
    JoinParts(t, tl, n, nl);
    JoinParts(t + n, tl + nl, a, al);
    JoinParts(t + n + a, tl + nl + al, r, rl);
    JoinParts(t + n + a + r, tl + nl + al + rl, p, pl);
    assert tl + nl + al + rl + pl == tl + (nl + (al + (rl + pl)));
  }

  /** The members of the object written for a schema are exactly `MemberList(s)`, in that order. */
  lemma SerializedMembers(s: Schema)
    ensures TopLevelMembers(Serialize(Some(s))) == MemberList(s)
  {
    MembersNeutral(s);
    ShallowOfObject(Members(s));
    MembersShowList(s);
    PairsFlatten(MemberList(s));
  }

  lemma {:induction false} MemberValueAppend(a: seq<(string, Token)>, b: seq<(string, Token)>, key: string)
    ensures MemberValue(a + b, key) == if MemberValue(a, key).Some? then MemberValue(a, key) else MemberValue(b, key)
    decreases |a|
  {
    if a == [] {
      assert a + b == b;
    } else {
      assert (a + b)[0] == a[0];
      assert (a + b)[1..] == a[1..] + b;
      MemberValueAppend(a[1..], b, key);
    }
  }

  /** Where each key sits in the member list: present exactly under its condition, with its value's first token. */
  lemma MemberListValues(s: Schema)
    ensures MemberValue(MemberList(s), "type") == if s.typeName.Some? then Some(StringValue(s.typeName.value)) else None
    ensures MemberValue(MemberList(s), "nullable") == if WritesNullable(s) then Some(BoolValue(true)) else None
    ensures MemberValue(MemberList(s), "additionalProperties") == if !s.additionalPropertiesAllowed then Some(BoolValue(false)) else None
    ensures MemberValue(MemberList(s), "required") == if HasRequired(s) then Some(StartArray) else None
    ensures MemberValue(MemberList(s), "properties") == if HasProperties(s) then Some(StartObject) else None
  {
    var tl, nl, al, rl, pl := TypeEntry(s), NullableEntry(s), AdditionalPropertiesEntry(s), RequiredEntry(s), PropertiesEntry(s);
    MemberValueAppend(rl, pl, "type");
    MemberValueAppend(al, rl + pl, "type");
    MemberValueAppend(nl, al + (rl + pl), "type");
    MemberValueAppend(tl, nl + (al + (rl + pl)), "type");
    MemberValueAppend(rl, pl, "nullable");
    MemberValueAppend(al, rl + pl, "nullable");
    MemberValueAppend(nl, al + (rl + pl), "nullable");
    MemberValueAppend(tl, nl + (al + (rl + pl)), "nullable");
    MemberValueAppend(rl, pl, "additionalProperties");
    MemberValueAppend(al, rl + pl, "additionalProperties");
    MemberValueAppend(nl, al + (rl + pl), "additionalProperties");
    MemberValueAppend(tl, nl + (al + (rl + pl)), "additionalProperties");
    MemberValueAppend(rl, pl, "required");
    MemberValueAppend(al, rl + pl, "required");
    MemberValueAppend(nl, al + (rl + pl), "required");
    MemberValueAppend(tl, nl + (al + (rl + pl)), "required");
    MemberValueAppend(rl, pl, "properties");
    MemberValueAppend(al, rl + pl, "properties");
    MemberValueAppend(nl, al + (rl + pl), "properties");
    MemberValueAppend(tl, nl + (al + (rl + pl)), "properties");
  }

  /** "type" is written exactly when the type is set, and its value is the type. */
  lemma TypeKeyWritten(s: Schema)
    ensures MemberValue(TopLevelMembers(Serialize(Some(s))), "type") ==
      if s.typeName.Some? then Some(StringValue(s.typeName.value)) else None
  {
    SerializedMembers(s);
    MemberListValues(s);
  }

  /** "nullable": true is written exactly for a nullable schema whose type is not "string" (a missing type included). */
  lemma NullableKeyWritten(s: Schema)
    ensures MemberValue(TopLevelMembers(Serialize(Some(s))), "nullable") ==
      if s.nullable && s.typeName != Some("string") then Some(BoolValue(true)) else None
  {
    SerializedMembers(s);
    MemberListValues(s);
  }

  /** "additionalProperties": false is written exactly when additional properties are not allowed. */
  lemma AdditionalPropertiesKeyWritten(s: Schema)
    ensures MemberValue(TopLevelMembers(Serialize(Some(s))), "additionalProperties") ==
      if !s.additionalPropertiesAllowed then Some(BoolValue(false)) else None
  {
    SerializedMembers(s);
    MemberListValues(s);
  }

  /** "required" (an array) is written exactly when the set is non-null and non-empty; "properties" (an object) likewise. */
  lemma CollectionKeysWritten(s: Schema)
    ensures MemberValue(TopLevelMembers(Serialize(Some(s))), "required") ==
      if s.required.Some? && |s.required.value| > 0 then Some(StartArray) else None
    ensures MemberValue(TopLevelMembers(Serialize(Some(s))), "properties") ==
      if s.properties.Dictionary? && |s.properties.entries| > 0 then Some(StartObject) else None
  {
    SerializedMembers(s);
    MemberListValues(s);
  }

  /** Every key is written at most once, in the order type, nullable, additionalProperties, required, properties. */
  lemma KeysInOrder(s: Schema)
    ensures InKeyOrder(TopLevelMembers(Serialize(Some(s))))
  {
    SerializedMembers(s);
    MemberListInOrder(s);
  }

  lemma MemberListInOrder(s: Schema)
    ensures InKeyOrder(MemberList(s))
  {
    var tl, nl, al, rl, pl := TypeEntry(s), NullableEntry(s), AdditionalPropertiesEntry(s), RequiredEntry(s), PropertiesEntry(s);
    assert InKeyOrder(pl) && forall i :: 0 <= i < |pl| ==> KeyRank(pl[i].0) > 3;
    PrependInOrder(rl, pl, 3);
    PrependInOrder(al, rl + pl, 2);
    PrependInOrder(nl, al + (rl + pl), 1);
    PrependInOrder(tl, nl + (al + (rl + pl)), 0);
  }

  /** At most one member of rank `k`, placed before members all ranked above `k`. */
  lemma PrependInOrder(head: seq<(string, Token)>, tail: seq<(string, Token)>, k: nat)
    requires k < 5 && |head| <= 1 && (|head| == 1 ==> head[0].0 == MemberKeys[k])
    requires InKeyOrder(tail) && forall i :: 0 <= i < |tail| ==> KeyRank(tail[i].0) > k
    ensures InKeyOrder(head + tail) && forall i :: 0 <= i < |head + tail| ==> KeyRank((head + tail)[i].0) >= k
  {
  }

  // ---------------------------------------------------------------------
  // Nesting is balanced

  lemma {:induction false} ObjectNeutral(s: Schema)
    ensures Neutral(ObjectTokens(s))
    decreases s, PropertyCount(s) + 4
  {
    MembersNeutral(s);
    NeutralObject(Members(s));
  }

  lemma {:induction false} MembersNeutral(s: Schema)
    ensures Neutral(Members(s))
    decreases s, PropertyCount(s) + 3
  {
    var t, n, a, r, p := TypeMember(s), NullableMember(s), AdditionalPropertiesMember(s), RequiredMember(s), PropertiesMember(s);
    NeutralScalars(t);
    NeutralScalars(n);
    NeutralScalars(a);
    if HasRequired(s) {
      NeutralScalars(Strings(s.required.value));
      NeutralArray(Strings(s.required.value));
      NeutralScalars([PropertyName("required")]);
      NeutralAppend([PropertyName("required")], StringArray(s.required.value));
    } else {
      NeutralScalars(r);
    }
    if HasProperties(s) {
      DictionaryNeutral(s);
      NeutralScalars([PropertyName("properties")]);
      NeutralAppend([PropertyName("properties")], DictionaryTokens(s));
    } else {
      NeutralScalars(p);
    }
    NeutralAppend(t, n);
    NeutralAppend(t + n, a);
    NeutralAppend(t + n + a, r);
    NeutralAppend(t + n + a + r, p);
  }

  lemma {:induction false} DictionaryNeutral(s: Schema)
    requires s.properties.Dictionary?
    ensures Neutral(DictionaryTokens(s))
    decreases s, PropertyCount(s) + 1
  {
    EntriesNeutral(s, |s.properties.entries|);
    NeutralObject(Entries(s, |s.properties.entries|));
  }

  lemma {:induction false} EntriesNeutral(s: Schema, n: nat)
    requires s.properties.Dictionary? && n <= |s.properties.entries|
    ensures Neutral(Entries(s, n))
    decreases s, n
  {
    if n == 0 {
      NeutralScalars([]);
    } else {
      var entry := s.properties.entries[n - 1];
      assert entry in s.properties.entries;
      EntriesNeutral(s, n - 1);
      ObjectNeutral(entry.schema);
      NeutralScalars([PropertyName(entry.name)]);
      NeutralAppend(Entries(s, n - 1), [PropertyName(entry.name)]);
      NeutralAppend(Entries(s, n - 1) + [PropertyName(entry.name)], ObjectTokens(entry.schema));
    }
  }
}
