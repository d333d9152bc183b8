# Aurora reactions and schema converter, in Dafny

This project models the server-side "uplift" reaction counter of Project
Aurora and the JSON converter its schema generator uses for OpenAPI schemas.

- **Reaction store client** (`ReactionStorage`): `ReactionStorageService` holds
  a handle on the "Reactions" table. Each article's counter is one row in the
  partition "Content", keyed by the article id. `GetUpliftCount` reads a row
  and turns a 404 into 0. `IncrementUpliftCount` is a sequential
  read-modify-write: read the row or start a fresh one on a 404, bump the
  counter in place, upsert the row, return the new count. The class is
  proved against the pure specification `Increment`, and the properties are
  proved about that specification.
- **Table store** (`TableStore`): the storage account as a class holding a
  map from table name to rows. A row is keyed by (PartitionKey, RowKey). A
  point read answers 404 for a missing row or table, and an upsert creates
  a row or merges into it, which for rows holding only reaction columns is
  the same as replacing it. Failures that do not depend on the table contents are a
  `fault` argument chosen by the environment. Table creation is the one
  store call without one (see "## Left out"). A ghost log of upserts plays
  the role of the `Verify(...)` calls in the unit tests.
- **Reaction record** (`ReactionEntities`): `ReactionEntity` is the mutable
  property bag. `EntityValue` is the row as the store keeps it.
- **Reaction HTTP endpoint** (`ReactToContentFunction`): `Respond` is the
  pure mapping from id and increment outcome to a response. `ReactToContent.Run`
  performs it: it validates the id, asks for exactly one increment and fills
  in an `HttpResponseData`.
- **Client read-back** (`ContentClient`, `JsonNumbers`): the body the endpoint
  writes is read back as the count the client reports.
- **Schema converter** (`OpenApiSchemaConverter`, `JsonTokens`): `WriteJson`
  appends tokens to a stateful `JsonWriter`. `Serialize` is the token stream
  it produces. Lemmas state which keys appear, with which values, in which
  order, and that the stream is balanced.

Behaviour of the code worth knowing, which the model keeps:

- The 200 response's Content-Type is `application/json; charset=utf-8`.
- The counter is a C# `int` whose `++` is unchecked. At 2147483647 it wraps
  to -2147483648, so the count is not always non-negative (`Common.Inc32`).
- `GetUpliftCountAsync` and `IncrementUpliftCountAsync` do not validate the
  id. Only the endpoint rejects null, empty or whitespace-only ids.
- The endpoint's whitespace test is .NET's `char.IsWhiteSpace`, not only
  ASCII space.
- The baseline lost-update hazard is kept. Increments are not retried and no
  ETag condition is used (`ReactionStorage.InterleavedIncrementsLoseOne`).

## Model

| member | source | states |
|---|---|---|
| `Common.Inc32` | src/Aurora.Api/Services/ReactionStorageService.cs:50 | unchecked `++` on an `int`: below Int32Max it adds one, and it is always congruent to x + 1 modulo 2^32 |
| `ReactionEntities.ReactionEntity.constructor` | src/Aurora.Api/Models/ReactionEntity.cs:8-13 | a fresh entity is in partition "Content", has RowKey "", no Timestamp or ETag, and UpliftCount 0 |
| `TableStore.TableClient.CreateIfNotExists` | src/Aurora.Api/Services/ReactionStorageService.cs:15 | the table exists afterwards; an existing table keeps its rows |
| `TableStore.TableClient.GetEntity` | src/Aurora.Api/Services/ReactionStorageService.cs:22 | a healthy point read returns the stored row exactly when the row exists, and 404 otherwise; an injected fault is thrown as is |
| `TableStore.TableServiceClient.GetTableClient` | src/Aurora.Api/Services/ReactionStorageService.cs:14 | a fresh handle on the named table of this storage account; it holds no rows of its own |
| `TableStore.TableClient.UpsertEntity` | src/Aurora.Api/Services/ReactionStorageService.cs:51 | on success the row under the entity's own keys is created or merged (the same as replaced for these rows) and nothing else changes; on failure the tables are unchanged; every attempt is logged |
| `ReactionStorage.Increment` | src/Aurora.Api/Services/ReactionStorageService.cs:37-57 | the upsert is attempted iff the read found the row or answered 404; success iff it was attempted and the write did not fail; the row written is ("Content", articleId) with the prior count (0 on a 404) plus one; the value returned is the value written; a failure leaves the rows unchanged and reports the read's or the write's exception |
| `ReactionStorage.IncrementExistingRow` | src/Aurora.Api/Services/ReactionStorageService.cs:42-52 | an existing row with count K is upserted with count K+1 and its other fields untouched, and K+1 is returned |
| `ReactionStorage.IncrementMissingRow` | src/Aurora.Api/Services/ReactionStorageService.cs:45-52 | a missing row or a 404 read upserts a new row with RowKey = articleId and count 1, and returns 1 |
| `ReactionStorage.IncrementLeavesOtherArticles` | src/Aurora.Api/Services/ReactionStorageService.cs:42-51 | whatever the store does, every other article's count is unchanged |
| `ReactionStorage.FailedIncrementKeepsCounts` | src/Aurora.Api/Services/ReactionStorageService.cs:37-57 | a failed increment leaves every count, its own article's included, as it was |
| `ReactionStorage.RepeatedIncrementsCount` | src/Aurora.Api/Services/ReactionStorageService.cs:42-52 | n sequential healthy increments raise the article's count by exactly n, as long as the counter does not wrap |
| `ReactionStorage.IncrementsFromNothing` | src/Aurora.Api/Services/ReactionStorageService.cs:18-52 | from an absent row, n increments leave a healthy read reporting n |
| `ReactionStorage.InterleavedIncrementsLoseOne` | src/Aurora.Api/Services/ReactionStorageService.cs:33-51 | two increments that both read before either writes both return K+1 and leave K+1, not K+2 |
| `ReactionStorage.ReactionStorageService.constructor` | src/Aurora.Api/Services/ReactionStorageService.cs:11-16 | the service holds the "Reactions" table, which exists afterwards; existing tables and rows are kept |
| `ReactionStorage.ReactionStorageService.GetUpliftCount` | src/Aurora.Api/Services/ReactionStorageService.cs:18-29 | a healthy read returns the stored count, or 0 when there is no row; a 404 returns 0; any other failure propagates |
| `ReactionStorage.ReactionStorageService.IncrementUpliftCount` | src/Aurora.Api/Services/ReactionStorageService.cs:31-58 | the result, the new "Reactions" rows and the upserts sent are those of `Increment`; no other table changes |
| `ReactToContentFunction.IsNullOrWhiteSpace` | src/Aurora.Api/ReactToContent.cs:29 | a null or empty id is rejected; an id holding any character that is not .NET white space is accepted |
| `ReactToContentFunction.UpliftBody` | src/Aurora.Api/ReactToContent.cs:41 | the body is a JSON object whose one member `uplift_count` holds the count's decimal rendering |
| `ReactToContentFunction.Respond` | src/Aurora.Api/ReactToContent.cs:29-55 | a null, empty or whitespace-only id gets a bare 400; otherwise success gets 200 with the JSON Content-Type and body `{"uplift_count": N}`, and any failure gets a bare 500; 200 iff valid id and success; the status is always 200, 400 or 500 |
| `ReactToContentFunction.ReactToContent.constructor` | src/Aurora.Api/ReactToContent.cs:15-19 | the endpoint keeps the reaction service it is given |
| `ReactToContentFunction.ReactToContent.Run` | src/Aurora.Api/ReactToContent.cs:23-56 | a rejected id gets 400 with no increment and no store change; a valid id causes exactly one increment, with that id, so at most one upsert is sent; the response is `Respond` of its outcome |
| `Http.HttpResponseData.constructor` | src/Aurora.Api/ReactToContent.cs:38 | `CreateResponse(status)` gives a response with that status, no headers and an empty body |
| `Http.HttpResponseData.AddHeader` | src/Aurora.Api/ReactToContent.cs:39 | the header is appended; status and body are unchanged |
| `Http.HttpResponseData.WriteString` | src/Aurora.Api/ReactToContent.cs:42 | the text is appended to the body; status and headers are unchanged |
| `JsonNumbers.FormatInteger` | src/Aurora.Api/ReactToContent.cs:41 | an integer's rendering is non-empty and starts with '-' exactly when the integer is negative |
| `JsonNumbers.FormatThenParse` | src/Aurora.Api/ReactToContent.cs:41 | the decimal rendering of any integer parses back as a JSON number to that integer |
| `JsonNumbers.ParseThenFormat` | src/Aurora.Client.Core/Services/ContentService.cs:35-41 | every JSON integer text except "-0" is the rendering of the value it parses to |
| `ContentClient.ReadUpliftCount` | src/Aurora.Client.Core/Services/ContentService.cs:35-36 | a count is read only from a body laid out as `{"uplift_count": ` number `}`, and it is the JSON integer between them |
| `ContentClient.ReactResult` | src/Aurora.Client.Core/Services/ContentService.cs:30-37 | the client reports a count only for a 2xx response |
| `ContentClient.BodyRoundTrip` | src/Aurora.Api/ReactToContent.cs:41 | reading `uplift_count` from the body written for N yields N |
| `ContentClient.ClientSeesEndpointCount` | src/Aurora.Client.Core/Services/ContentService.cs:30-37 | for a valid id the client reports exactly the count the increment returned; it fails when the id was rejected or the increment failed |
| `OpenApiSchemaConverter.Serialize` | src/SchemaBuilder/OpenApiSchemaJsonConverter.cs:9-54 | a null schema is the single token `null`; a schema is an object that starts with StartObject, ends with EndObject and is balanced |
| `OpenApiSchemaConverter.WriteJson` | src/SchemaBuilder/OpenApiSchemaJsonConverter.cs:9-54 | the writer's tokens grow by exactly `Serialize(value)` |
| `OpenApiSchemaConverter.WriteMembers` | src/SchemaBuilder/OpenApiSchemaJsonConverter.cs:20-51 | the writer's tokens grow by the five conditional members, in the source's order |
| `OpenApiSchemaConverter.WriteTypeMember` | src/SchemaBuilder/OpenApiSchemaJsonConverter.cs:20-24 | appends "type" and the type, only when a type is set |
| `OpenApiSchemaConverter.WriteNullableMember` | src/SchemaBuilder/OpenApiSchemaJsonConverter.cs:28-32 | appends "nullable": true only for a nullable schema whose type is not "string" |
| `OpenApiSchemaConverter.WriteAdditionalPropertiesMember` | src/SchemaBuilder/OpenApiSchemaJsonConverter.cs:34-38 | appends "additionalProperties": false only when they are not allowed |
| `OpenApiSchemaConverter.WriteRequiredMember` | src/SchemaBuilder/OpenApiSchemaJsonConverter.cs:41-45 | appends "required" and the set as an array of strings, only when it is non-null and non-empty |
| `OpenApiSchemaConverter.WritePropertiesMember` | src/SchemaBuilder/OpenApiSchemaJsonConverter.cs:47-51 | appends "properties" and the dictionary, each value through the converter, only when it is non-null and non-empty |
| `OpenApiSchemaConverter.WriteStringSet` | src/SchemaBuilder/OpenApiSchemaJsonConverter.cs:44 | the Required set is written as an array of its strings, in iteration order |
| `OpenApiSchemaConverter.WriteDictionary` | src/SchemaBuilder/OpenApiSchemaJsonConverter.cs:50 | the Properties dictionary is written as an object with one member per entry, each value through the converter |
| `OpenApiSchemaConverter.SerializedMembers` | src/SchemaBuilder/OpenApiSchemaJsonConverter.cs:17-53 | the members directly inside the written object are exactly the conditional list type, nullable, additionalProperties, required, properties |
| `OpenApiSchemaConverter.TypeKeyWritten` | src/SchemaBuilder/OpenApiSchemaJsonConverter.cs:20-24 | "type" appears iff Type is non-null, and its value is Type |
| `OpenApiSchemaConverter.NullableKeyWritten` | src/SchemaBuilder/OpenApiSchemaJsonConverter.cs:28-32 | "nullable": true appears iff Nullable holds and Type is not "string", a null Type included |
| `OpenApiSchemaConverter.AdditionalPropertiesKeyWritten` | src/SchemaBuilder/OpenApiSchemaJsonConverter.cs:34-38 | "additionalProperties": false appears iff AdditionalPropertiesAllowed is false |
| `OpenApiSchemaConverter.CollectionKeysWritten` | src/SchemaBuilder/OpenApiSchemaJsonConverter.cs:41-51 | "required" (an array) appears iff Required is non-null and non-empty; "properties" (an object) likewise for Properties |
| `OpenApiSchemaConverter.KeysInOrder` | src/SchemaBuilder/OpenApiSchemaJsonConverter.cs:20-51 | every key appears at most once, in the order type, nullable, additionalProperties, required, properties |
| `OpenApiSchemaConverter.ObjectNeutral` | src/SchemaBuilder/OpenApiSchemaJsonConverter.cs:17-53 | the object written for any schema, nested properties included, closes every container it opens, wherever it is placed |
| `OpenApiSchemaConverter.ReadJson` | src/SchemaBuilder/OpenApiSchemaJsonConverter.cs:56-60 | reading always fails with an exception |

## Left out

- Concurrency: the async/await of the read-modify-write is modelled as
  sequential steps. The lost update is shown only for two reads that both
  happen before two writes.
- Azure SDK internals: ETag conditions, `TableUpdateMode`, timestamps set by
  the store, retries in the transport and cancellation are not modelled. The
  store is a map of rows plus a per-call fault.
- Logging, dependency injection and host wiring are left out. They do not
  affect results.
- ReactionStorage.ReactionStorageService.constructor: `CreateIfNotExists`
  is a store call that can throw, which makes the constructor fail. The
  model's table creation takes no fault and always succeeds, so a failed
  construction is not modelled.
- ReactToContentFunction.ReactToContent.Run: `CreateResponse`,
  `Headers.Add` and `WriteStringAsync` run inside the `try`. If one of them
  throws after a successful increment, the answer is 500. The model's
  response building cannot fail, so `Respond` and `Run` promise 200 for
  every successful increment.
- JsonNumbers.FormatInteger: the count is interpolated with the current
  culture. The model renders it as the invariant culture does ('-' before
  the digits of a negative number, no group separators), and other cultures'
  negative signs are not modelled.
- The null check on the service constructor's argument is left out. Dafny
  references are never null.
- `ContentClient.ReadUpliftCount` reads only bodies laid out exactly as the
  endpoint writes them (`{"uplift_count": ` digits `}`), not arbitrary JSON.
  Other whitespace, key order and extra members are not modelled.
- `OpenApiSchemaConverter.Serialize`: the Newtonsoft serializer's encoding of
  the Required set and the Properties dictionary is modelled as an array of
  strings and an object of converter-written values. The set's iteration
  order is taken as given.
- Schema fields the converter never reads (format, description, items and
  the rest) are not modelled.
- `ReadJson` is modelled as a function returning a failure. The thrown
  `NotImplementedException` is `OtherException`.
- The daily-content function, the client HTTP wrappers, the mobile UI, the
  schema-generator program and the storage-emulator setup are I/O plumbing
  and are not part of this model.
