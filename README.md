# http4k moshi: node model, token codec and adapter configuration

This project models the core of http4k's Moshi JSON format in Dafny and proves properties of
the model. It covers three parts:

- **`MoshiNode`**: the closed six-variant JSON tree (object, array, string, boolean, number,
  null). It is modelled as a datatype. An object's map is an ordered sequence of entries,
  because its iteration order is the order `toJson` writes.
- **`MoshiNodeAdapter`**: the adapter that writes a node to Moshi's `JsonWriter` and reads one
  from a `JsonReader`.
  - The reader is a class holding a position in a token array.
  - The writer is a class whose `written` sequence grows one token per call.
  - `toJson` and `fromJson` are methods, proved against the functions `Serialise` and `Parse`.
  - `fromJson` as written does not consume a null token. The reader the model proves things
    about consumes it, as evidently intended; see Findings.
  - With the corrected reader, and a writer that writes fields holding null, parsing the
    serialisation of a node gives the node back and consumes exactly the tokens written. This
    holds for any node whose numbers are `Long`s and whose objects have unique keys. The round
    trip the code as written satisfies is `MoshiNodeAsWritten.AsWrittenRoundTrip`, for nodes
    with no `MoshiNull` inside.
- **`ConfigurableMoshi` and `asConfigurable()`**:
  - the accessor facade (`typeOf`, `fields`, `elements`, `text`, `bool`, `integer`, `decimal`,
    `textValueOf`);
  - the node builders (`asJsonValue`, `asJsonArray`, `asJsonObject`);
  - the null-safe adapter registered for each primitive mapping;
  - `UnitAdapter`;
  - the order in which `done()` registers adapters on the `Moshi.Builder`.

Files:

- `results.dfy`: `Option` (Kotlin's nullable values) and `Result` (a value, or the exception
  that would have been thrown).
- `json_tokens.dfy`: tokens, the reader's typed reads (`nextLong()`, `nextInt()`, ...), the
  writer's `value(...)` calls, and the reader and writer classes.
- `moshi_node.dfy`: the node datatype, the map operations `map[k] = v` and `toMap()`, and
  their lemmas.
- `moshi_node_adapter.dfy`: `toJson`, `fromJson` and their specification functions.
- `moshi_node_properties.dfy`: the round trip, the error cases and the repeated-key rule.
- `moshi_node_as_written.dfy`: `fromJson` exactly as written, which leaves a null token unread
  (see Findings), and how it relates to the corrected reader.
- `configurable_moshi.dfy`: the accessor facade and the node builders.
- `moshi_configuration.dfy`: the primitive and `Unit` adapters, the builder and adapter
  resolution.

Numbers:

- A number literal is given to the model already classified: an integer literal of any
  magnitude, or another literal whose text is kept.
- In this model, `nextLong()` accepts exactly the integer literals within the signed 64-bit
  range.
- A double is an opaque value standing for the literal it was read from. No floating-point
  arithmetic is done.

Errors:

- A `JsonDataException` is `Err`. It carries the offset of the offending token in place of
  Moshi's `$path`.
- An accessor's `IllegalStateException` is `Err` of an `AccessError`.

Adapter resolution is Moshi's own rule, which is not part of this model. It is stated here as
an assumption:

- `add` places a factory after earlier `add`s and before every `addLast`;
- a type resolves to the first factory that accepts it.

## Model

| member | source | states |
|---|---|---|
| `JsonTokens.ReadLong` | http4k-format/moshi/src/main/kotlin/org/http4k/format/MoshiModel.kt:82-83 | the `nextLong()` the number rule relies on succeeds exactly on an integer literal within the signed 64-bit range, and yields that integer |
| `JsonTokens.ReadDouble` | http4k-format/moshi/src/main/kotlin/org/http4k/format/MoshiModel.kt:85 | `nextDouble()` succeeds exactly on a number token and keeps its literal |
| `JsonTokens.ReadInt` | http4k-format/moshi/src/main/kotlin/org/http4k/format/ConfigurableMoshi.kt:142 | `nextInt()` succeeds exactly on an integer literal within the signed 32-bit range, and yields that integer |
| `JsonTokens.ReadBoolean` | http4k-format/moshi/src/main/kotlin/org/http4k/format/MoshiModel.kt:80 | `nextBoolean()` succeeds exactly on a boolean token, and yields its value |
| `JsonTokens.ReadString` | http4k-format/moshi/src/main/kotlin/org/http4k/format/MoshiModel.kt:87 | `nextString()` succeeds exactly on a string token, and yields its text |
| `JsonTokens.WriteInt` | http4k-format/moshi/src/main/kotlin/org/http4k/format/ConfigurableMoshi.kt:142 | the token written by `value(int)` reads back as that value through `nextInt()` and through `nextLong()` |
| `JsonTokens.WriteDouble` | http4k-format/moshi/src/main/kotlin/org/http4k/format/ConfigurableMoshi.kt:147 | the token written by `value(double)` reads back as that double through `nextDouble()` |
| `JsonTokens.WriteBoolean` | http4k-format/moshi/src/main/kotlin/org/http4k/format/ConfigurableMoshi.kt:156 | the token written by `value(boolean)` reads back as that value through `nextBoolean()` |
| `JsonTokens.WriteString` | http4k-format/moshi/src/main/kotlin/org/http4k/format/ConfigurableMoshi.kt:159 | the token written by `value(String)` reads back as that string through `nextString()` |
| `JsonTokens.TokenReader.constructor` | http4k-format/moshi/src/main/kotlin/org/http4k/format/MoshiModel.kt:60 | a reader starts in front of the first token |
| `JsonTokens.TokenReader.Next` | http4k-format/moshi/src/main/kotlin/org/http4k/format/MoshiModel.kt:63-78 | `beginArray()`, `endArray()`, `beginObject()`, `nextName()` and `endObject()` consume exactly the next token and hand it back |
| `JsonTokens.TokenWriter.constructor` | http4k-format/moshi/src/main/kotlin/org/http4k/format/MoshiModel.kt:34 | a writer starts with nothing written |
| `JsonTokens.WriteLong` | http4k-format/moshi/src/main/kotlin/org/http4k/format/MoshiModel.kt:53 | the token written for a `Long` payload reads back as that `Long` |
| `JsonTokens.TokenReader.Peek` | http4k-format/moshi/src/main/kotlin/org/http4k/format/MoshiModel.kt:61 | `peek()` reports the token at the reader position, or the end of the document after it |
| `JsonTokens.TokenReader.Read` | http4k-format/moshi/src/main/kotlin/org/http4k/format/MoshiModel.kt:80-87 | a typed read consumes one token and yields its value exactly when the token has the kind asked for; otherwise it fails and consumes nothing |
| `JsonTokens.TokenReader.PeekJson` | http4k-format/moshi/src/main/kotlin/org/http4k/format/MoshiModel.kt:82 | `peekJson()` gives a second reader at the same position over the same tokens, so reading ahead with it leaves the original reader where it was |
| `JsonTokens.TokenWriter.Write` | http4k-format/moshi/src/main/kotlin/org/http4k/format/MoshiModel.kt:34-57 | each writer call appends exactly its token to what was written |
| `MoshiNodes.Lookup` | http4k-format/moshi/src/main/kotlin/org/http4k/format/MoshiModel.kt:22 | `node[name]`: absent exactly when no entry has the name, and otherwise the value of an entry with that name |
| `MoshiNodes.LookupUnique` | http4k-format/moshi/src/main/kotlin/org/http4k/format/MoshiModel.kt:22 | with unique keys, each entry is what a lookup of its key finds |
| `MoshiNodes.Put` | http4k-format/moshi/src/main/kotlin/org/http4k/format/MoshiModel.kt:75 | `map[k] = v` on the `LinkedHashMap`, as a function; what it does is stated by `PutShape`, `PutLookupSame`, `PutLookupOther`, `PutNames` and `PutUnique` |
| `MoshiNodes.PutAll` | http4k-format/moshi/src/main/kotlin/org/http4k/format/ConfigurableMoshi.kt:91 | `toMap()` of pairs, and the fill loop at MoshiModel.kt:72-75, as a function; what it does is stated by `PutAllFresh`, `PutAllLookup` and `PutAllUnique` |
| `MoshiNodes.PutShape` | http4k-format/moshi/src/main/kotlin/org/http4k/format/MoshiModel.kt:75 | `map[k] = v` keeps the length and the key order when the key is present, and appends the entry when it is new |
| `MoshiNodes.PutLookupSame` | http4k-format/moshi/src/main/kotlin/org/http4k/format/MoshiModel.kt:75 | after `map[k] = v`, looking up `k` gives `v` |
| `MoshiNodes.PutLookupOther` | http4k-format/moshi/src/main/kotlin/org/http4k/format/MoshiModel.kt:75 | after `map[k] = v`, every other key looks up as before |
| `MoshiNodes.PutNames` | http4k-format/moshi/src/main/kotlin/org/http4k/format/MoshiModel.kt:75 | after `map[k] = v`, the keys present are the old keys plus `k` |
| `MoshiNodes.PutUnique` | http4k-format/moshi/src/main/kotlin/org/http4k/format/MoshiModel.kt:72-75 | `map[k] = v` keeps one entry per key |
| `MoshiNodes.PutAllFresh` | http4k-format/moshi/src/main/kotlin/org/http4k/format/MoshiModel.kt:72-75 | filling a map from pairs with distinct keys keeps every pair, in order |
| `MoshiNodes.LastValue` | http4k-format/moshi/src/main/kotlin/org/http4k/format/MoshiModel.kt:72-75 | the last value given for a key is absent exactly when no pair has that key |
| `MoshiNodes.PutAllLookup` | http4k-format/moshi/src/main/kotlin/org/http4k/format/MoshiModel.kt:72-75 | after filling a map, a key holds the last value given for it, and a key no pair names keeps its earlier value |
| `MoshiNodes.PutAllUnique` | http4k-format/moshi/src/main/kotlin/org/http4k/format/MoshiModel.kt:72-75 | filling a map keeps one entry per key |
| `MoshiNodeAdapter.NumberToken` | http4k-format/moshi/src/main/kotlin/org/http4k/format/MoshiModel.kt:53 | a number node writes one number token; a `Long` payload reads back as that `Long`, and a double payload as that double |
| `MoshiNodeAdapter.Serialise` | http4k-format/moshi/src/main/kotlin/org/http4k/format/MoshiModel.kt:34-57 | every node writes at least one token, and the first token starts a value |
| `MoshiNodeAdapter.SerialiseFieldsAppend` | http4k-format/moshi/src/main/kotlin/org/http4k/format/MoshiModel.kt:40-43 | the tokens of an object body are the tokens of its fields in iteration order, a name and then the value for each |
| `MoshiNodeAdapter.SerialiseElementsAppend` | http4k-format/moshi/src/main/kotlin/org/http4k/format/MoshiModel.kt:48 | the tokens of an array body are the tokens of its elements in list order |
| `MoshiNodeAdapter.ToJson` | http4k-format/moshi/src/main/kotlin/org/http4k/format/MoshiModel.kt:34-57 | `toJson` appends to the writer exactly the serialisation of the node, and a single null token for `null` |
| `MoshiNodeAdapter.WriteFields` | http4k-format/moshi/src/main/kotlin/org/http4k/format/MoshiModel.kt:40-43 | the `forEach` over the fields writes the name and the value of each field in iteration order |
| `MoshiNodeAdapter.WriteElements` | http4k-format/moshi/src/main/kotlin/org/http4k/format/MoshiModel.kt:48 | the `forEach` over the elements writes each element in list order |
| `MoshiNodeAdapter.ReadNumber` | http4k-format/moshi/src/main/kotlin/org/http4k/format/MoshiModel.kt:81-86 | a number token reads as a `Long` exactly when `nextLong()` accepts its literal, and otherwise as the double |
| `MoshiNodeAdapter.Parse` | http4k-format/moshi/src/main/kotlin/org/http4k/format/MoshiModel.kt:60-90 | the reader with a null token consumed (see Findings): a read that succeeds ends after its start and within the tokens; an error is never reported before the start |
| `MoshiNodeAdapter.ParseElements` | http4k-format/moshi/src/main/kotlin/org/http4k/format/MoshiModel.kt:63-69 | the same for the body of an array |
| `MoshiNodeAdapter.ParseFields` | http4k-format/moshi/src/main/kotlin/org/http4k/format/MoshiModel.kt:70-79 | the same for the body of an object |
| `MoshiNodeAdapter.FromJson` | http4k-format/moshi/src/main/kotlin/org/http4k/format/MoshiModel.kt:59-90 | the corrected `fromJson`, which reads a null token with `nextNull()`: on the reader it gives the node and the end position that `Parse` gives, or the same exception |
| `MoshiNodeAdapter.ReadElements` | http4k-format/moshi/src/main/kotlin/org/http4k/format/MoshiModel.kt:64-68 | the `while (peek() != END_ARRAY)` loop of the corrected reader agrees with `ParseElements` |
| `MoshiNodeAdapter.ReadFields` | http4k-format/moshi/src/main/kotlin/org/http4k/format/MoshiModel.kt:71-78 | the `while (peek() != END_OBJECT)` loop of the corrected reader agrees with `ParseFields`, including the "expected name" failure |
| `MoshiNodeProperties.ParseSerialise` | http4k-format/moshi/src/main/kotlin/org/http4k/format/MoshiModel.kt:34-90 | with the corrected reader, reading the tokens of a node whose numbers are `Long`s and whose objects have unique keys gives that node back, and stops right after those tokens |
| `MoshiNodeProperties.ObjectRoundTrip` | http4k-format/moshi/src/main/kotlin/org/http4k/format/MoshiModel.kt:38-45 | an object written as `{`, its fields in iteration order, then `}`, is read back as the same object |
| `MoshiNodeProperties.ArrayRoundTrip` | http4k-format/moshi/src/main/kotlin/org/http4k/format/MoshiModel.kt:46-50 | an array written as `[`, its elements in order, then `]`, is read back as the same array |
| `MoshiNodeProperties.FieldsRoundTrip` | http4k-format/moshi/src/main/kotlin/org/http4k/format/MoshiModel.kt:70-79 | reading back the tokens of distinct-key fields fills the map with exactly those fields, in order, and consumes them and the closing token |
| `MoshiNodeProperties.ElementsRoundTrip` | http4k-format/moshi/src/main/kotlin/org/http4k/format/MoshiModel.kt:63-69 | reading back the tokens of elements gives exactly those elements, in order, and consumes them and the closing token |
| `MoshiNodeProperties.RoundTrip` | http4k-format/moshi/src/main/kotlin/org/http4k/format/MoshiModel.kt:34-90 | with the corrected reader, parse after serialise is the identity on integral nodes, and consumes exactly the tokens written |
| `MoshiNodeProperties.WriteThenRead` | http4k-format/moshi/src/main/kotlin/org/http4k/format/MoshiModel.kt:34-90 | running `toJson` and then `fromJson` on the written tokens gives the node back and consumes exactly what was written |
| `MoshiNodeProperties.NullWritesOneToken` | http4k-format/moshi/src/main/kotlin/org/http4k/format/MoshiModel.kt:37-52 | `null` and `MoshiNull` each write exactly one null token |
| `MoshiNodeProperties.IllegalValueAt` | http4k-format/moshi/src/main/kotlin/org/http4k/format/MoshiModel.kt:88 | a value position fails with "illegal value" exactly when its token cannot start a value, that is at `]`, `}`, a name or the end of the document |
| `MoshiNodeProperties.ExpectedNameAfterFields` | http4k-format/moshi/src/main/kotlin/org/http4k/format/MoshiModel.kt:73-74 | inside an object body, a token that is neither a name nor `}` where a name is expected fails with "expected name" at that token, with no node returned |
| `MoshiNodeProperties.BareValueInObject` | http4k-format/moshi/src/main/kotlin/org/http4k/format/MoshiModel.kt:73-74 | the same for a whole document: `{`, some fields, then a bare value fails at that value |
| `MoshiNodeProperties.ParseValid` | http4k-format/moshi/src/main/kotlin/org/http4k/format/MoshiModel.kt:60-90 | every node `fromJson` returns has one entry per key in each object |
| `MoshiNodeProperties.RepeatedKeysLastWins` | http4k-format/moshi/src/main/kotlin/org/http4k/format/MoshiModel.kt:72-75 | an object body that repeats keys is read as an object with one entry per key, each holding the last value read for it |
| `MoshiNodeProperties.DuplicateKeyLastWins` | http4k-format/moshi/src/main/kotlin/org/http4k/format/MoshiModel.kt:72-75 | `{"x":1,"x":2}` reads as `{"x":2}` |
| `MoshiNodeAsWritten.ParseAsWritten` | http4k-format/moshi/src/main/kotlin/org/http4k/format/MoshiModel.kt:60-90 | `fromJson` as written: a read ends within the tokens, and one that consumes nothing answered `MoshiNull` at a null token |
| `MoshiNodeAsWritten.ElementsAsWritten` | http4k-format/moshi/src/main/kotlin/org/http4k/format/MoshiModel.kt:63-69 | the array loop as written: when it ends, it has consumed at least the closing token |
| `MoshiNodeAsWritten.FieldsAsWritten` | http4k-format/moshi/src/main/kotlin/org/http4k/format/MoshiModel.kt:70-79 | the object loop as written: when it ends, it has consumed at least the closing token |
| `MoshiNodeAsWritten.NullElementDiverges` | http4k-format/moshi/src/main/kotlin/org/http4k/format/MoshiModel.kt:62-66 | `[null]` never finishes reading as written, and the corrected reader gives `[null]` |
| `MoshiNodeAsWritten.NullFieldThrows` | http4k-format/moshi/src/main/kotlin/org/http4k/format/MoshiModel.kt:62-75 | `{"a":null}` fails with "expected name" at the null as written, and the corrected reader gives the object |
| `MoshiNodeAsWritten.NullValueUnread` | http4k-format/moshi/src/main/kotlin/org/http4k/format/MoshiModel.kt:61-62 | a top-level `null` is answered as written without reading the token |
| `MoshiNodeAsWritten.LeadingNullElementDiverges` | http4k-format/moshi/src/main/kotlin/org/http4k/format/MoshiModel.kt:62-66 | an array whose first element is `MoshiNull`, serialised, never finishes reading as written |
| `MoshiNodeAsWritten.LeadingNullFieldThrows` | http4k-format/moshi/src/main/kotlin/org/http4k/format/MoshiModel.kt:62-75 | an object whose first field holds `MoshiNull`, serialised, fails as written with "expected name" at the null |
| `MoshiNodeAsWritten.ParseAgrees` | http4k-format/moshi/src/main/kotlin/org/http4k/format/MoshiModel.kt:60-90 | on tokens without a null token, the code as written reads the same node as the corrected reader and stops at the same offset |
| `MoshiNodeAsWritten.ElementsAgree` | http4k-format/moshi/src/main/kotlin/org/http4k/format/MoshiModel.kt:63-69 | the same for the array loop |
| `MoshiNodeAsWritten.FieldsAgree` | http4k-format/moshi/src/main/kotlin/org/http4k/format/MoshiModel.kt:70-79 | the same for the object loop |
| `MoshiNodeAsWritten.SerialiseNullFree` | http4k-format/moshi/src/main/kotlin/org/http4k/format/MoshiModel.kt:34-57 | a node with no `MoshiNull` in it writes no null token |
| `MoshiNodeAsWritten.AsWrittenRoundTrip` | http4k-format/moshi/src/main/kotlin/org/http4k/format/MoshiModel.kt:34-90 | the code as written reads back every integral node with no `MoshiNull` inside, and consumes exactly the tokens written |
| `ConfigurableMoshi.TypeOf` | http4k-format/moshi/src/main/kotlin/org/http4k/format/ConfigurableMoshi.kt:93-100 | `typeOf` is total and gives each of the six variants a kind of its own |
| `ConfigurableMoshi.Fields` | http4k-format/moshi/src/main/kotlin/org/http4k/format/ConfigurableMoshi.kt:102-105 | `fields` gives the entries of an object as pairs, in iteration order, and nothing for any other node |
| `ConfigurableMoshi.Elements` | http4k-format/moshi/src/main/kotlin/org/http4k/format/ConfigurableMoshi.kt:107-111 | `elements` gives an object's values in iteration order, an array's elements, and nothing for any other node |
| `ConfigurableMoshi.FieldsElementsAgree` | http4k-format/moshi/src/main/kotlin/org/http4k/format/ConfigurableMoshi.kt:102-111 | on an object, `fields` and `elements` have the same length and `elements` lists the values of `fields` in the same order |
| `ConfigurableMoshi.Text` | http4k-format/moshi/src/main/kotlin/org/http4k/format/ConfigurableMoshi.kt:113-116 | `text` succeeds exactly on a string node, with its value, and otherwise fails with "not a string node" |
| `ConfigurableMoshi.Bool` | http4k-format/moshi/src/main/kotlin/org/http4k/format/ConfigurableMoshi.kt:118-121 | `bool` succeeds exactly on a boolean node, with its value |
| `ConfigurableMoshi.Integer` | http4k-format/moshi/src/main/kotlin/org/http4k/format/ConfigurableMoshi.kt:123-126 | `integer` succeeds exactly on a number node; a `Long` is returned unchanged |
| `ConfigurableMoshi.Decimal` | http4k-format/moshi/src/main/kotlin/org/http4k/format/ConfigurableMoshi.kt:128-131 | `decimal` succeeds exactly on a number node |
| `ConfigurableMoshi.AccessorsExclusive` | http4k-format/moshi/src/main/kotlin/org/http4k/format/ConfigurableMoshi.kt:113-131 | the accessors never coerce: no two of `text`, `bool` and `integer` succeed on the same node, and all fail on arrays, objects and null |
| `ConfigurableMoshi.TextValueOf` | http4k-format/moshi/src/main/kotlin/org/http4k/format/ConfigurableMoshi.kt:133-136 | `textValueOf` is absent for a non-object and a missing field, the text of a string field, and fails for a present field that is not a string |
| `ConfigurableMoshi.AsJsonValueString` | http4k-format/moshi/src/main/kotlin/org/http4k/format/ConfigurableMoshi.kt:75 | a null string builds `MoshiNull`; a string builds a node whose `text` is that string |
| `ConfigurableMoshi.AsJsonValueInt` | http4k-format/moshi/src/main/kotlin/org/http4k/format/ConfigurableMoshi.kt:77 | a null `Int` builds `MoshiNull`; an `Int` builds a node whose `integer` is that value |
| `ConfigurableMoshi.AsJsonValueLong` | http4k-format/moshi/src/main/kotlin/org/http4k/format/ConfigurableMoshi.kt:81 | a null `Long` builds `MoshiNull`; a `Long` builds a node whose `integer` is that value |
| `ConfigurableMoshi.AsJsonValueBoolean` | http4k-format/moshi/src/main/kotlin/org/http4k/format/ConfigurableMoshi.kt:87 | a null `Boolean` builds `MoshiNull`; a `Boolean` builds a node whose `bool` is that value |
| `ConfigurableMoshi.AsJsonArray` | http4k-format/moshi/src/main/kotlin/org/http4k/format/ConfigurableMoshi.kt:89 | `asJsonArray` builds an array whose `elements` are the given nodes, in order |
| `ConfigurableMoshi.AsJsonObject` | http4k-format/moshi/src/main/kotlin/org/http4k/format/ConfigurableMoshi.kt:91 | `asJsonObject` builds an object with one entry per key |
| `ConfigurableMoshi.AsJsonObjectLookup` | http4k-format/moshi/src/main/kotlin/org/http4k/format/ConfigurableMoshi.kt:91 | in the built object each key holds the last value given for it, and a key no pair has is absent |
| `ConfigurableMoshi.FieldsOfAsJsonObject` | http4k-format/moshi/src/main/kotlin/org/http4k/format/ConfigurableMoshi.kt:91-105 | with distinct keys, `fields` of `asJsonObject(pairs)` is `pairs` |
| `ConfigurableMoshi.AsJsonObjectOfFields` | http4k-format/moshi/src/main/kotlin/org/http4k/format/ConfigurableMoshi.kt:91-105 | `asJsonObject(fields(n))` is `n` for every object with unique keys |
| `ConfigurableMoshi.TextValueOfAsJsonObject` | http4k-format/moshi/src/main/kotlin/org/http4k/format/ConfigurableMoshi.kt:91-136 | `textValueOf` on a built object looks at the last value given for the key |
| `MoshiConfiguration.PrimitivesLossless` | http4k-format/moshi/src/main/kotlin/org/http4k/format/ConfigurableMoshi.kt:142-159 | the `value(...)` write and the `next...()` read of each primitive in this model (`Int`, `Long`, `Double`, `Boolean`, `String`) undo each other, and none reads a null token |
| `MoshiConfiguration.EncodeMapped` | http4k-format/moshi/src/main/kotlin/org/http4k/format/ConfigurableMoshi.kt:170-172 | the registered adapter writes one token: a null token for `null`, and for a value the primitive that reads back as `mapping(value)` |
| `MoshiConfiguration.DecodeMapped` | http4k-format/moshi/src/main/kotlin/org/http4k/format/ConfigurableMoshi.kt:168-173 | the registered adapter reads one token: `null` exactly from a null token; at any other token it succeeds exactly when the primitive read does, with `mapping(read value)`, and otherwise fails with "unexpected token" at that offset |
| `MoshiConfiguration.MappedToJson` | http4k-format/moshi/src/main/kotlin/org/http4k/format/ConfigurableMoshi.kt:170-173 | `toJson` of the null-safe adapter appends exactly the tokens of `EncodeMapped` |
| `MoshiConfiguration.MappedFromJson` | http4k-format/moshi/src/main/kotlin/org/http4k/format/ConfigurableMoshi.kt:168-173 | `fromJson` of the null-safe adapter gives the result of `DecodeMapped` and moves the reader past the token it read |
| `MoshiConfiguration.MappedRoundTrip` | http4k-format/moshi/src/main/kotlin/org/http4k/format/ConfigurableMoshi.kt:161-173 | with a lossless primitive and inverse mapping directions, reading what the adapter wrote gives the value back (null included) and consumes one token |
| `MoshiConfiguration.UnitTokens` | http4k-format/moshi/src/main/kotlin/org/http4k/format/ConfigurableMoshi.kt:192-194 | `Unit` writes `{}`, and `null` writes a null token |
| `MoshiConfiguration.UnitToJson` | http4k-format/moshi/src/main/kotlin/org/http4k/format/ConfigurableMoshi.kt:192-194 | `UnitAdapter.toJson` appends exactly those tokens |
| `MoshiConfiguration.UnitTokensAreOneValue` | http4k-format/moshi/src/main/kotlin/org/http4k/format/ConfigurableMoshi.kt:187-194 | what `UnitAdapter` writes reads back as one value: an empty object or null |
| `MoshiConfiguration.UnitFromJson` | http4k-format/moshi/src/main/kotlin/org/http4k/format/ConfigurableMoshi.kt:188-190 | `UnitAdapter.fromJson` consumes exactly one value, as the node reader parses it, and fails where that read fails |
| `MoshiConfiguration.UnitReadsOneValue` | http4k-format/moshi/src/main/kotlin/org/http4k/format/ConfigurableMoshi.kt:188-190 | `UnitAdapter.fromJson` in front of the tokens of any integral node succeeds and stops right after that node, whatever follows |
| `MoshiConfiguration.Resolve` | http4k-format/moshi/src/main/kotlin/org/http4k/format/ConfigurableMoshi.kt:176-184 | resolution picks the first factory that accepts the type, and is absent exactly when none does |
| `MoshiConfiguration.ResolvePrefix` | http4k-format/moshi/src/main/kotlin/org/http4k/format/ConfigurableMoshi.kt:176-184 | a type accepted by an earlier factory is never resolved by a later one |
| `MoshiConfiguration.ResolveSuffix` | http4k-format/moshi/src/main/kotlin/org/http4k/format/ConfigurableMoshi.kt:176-184 | a type no earlier factory accepts is resolved among the later ones |
| `MoshiConfiguration.MoshiBuilder.constructor` | http4k-format/moshi/src/main/kotlin/org/http4k/format/ConfigurableMoshi.kt:141 | a new builder holds no factories |
| `MoshiConfiguration.MoshiBuilder.Add` | http4k-format/moshi/src/main/kotlin/org/http4k/format/ConfigurableMoshi.kt:177-183 | `add` puts a factory after every earlier `add` and before every `addLast` |
| `MoshiConfiguration.MoshiBuilder.AddLast` | http4k-format/moshi/src/main/kotlin/org/http4k/format/ConfigurableMoshi.kt:184 | `addLast` puts a factory after everything |
| `MoshiConfiguration.RegisterMapping` | http4k-format/moshi/src/main/kotlin/org/http4k/format/ConfigurableMoshi.kt:161-174 | `adapter(mapping, ...)` adds one factory, for exactly `mapping.clazz` |
| `MoshiConfiguration.DoneAdded` | http4k-format/moshi/src/main/kotlin/org/http4k/format/ConfigurableMoshi.kt:179-183 | the fifth and last factory `done()` adds is the `Unit` adapter |
| `MoshiConfiguration.Done` | http4k-format/moshi/src/main/kotlin/org/http4k/format/ConfigurableMoshi.kt:177-184 | `done()` adds the event, throwable, collection edge-case, node and `Unit` adapters in that order, then the reflective factory with `addLast` |
| `MoshiConfiguration.ExplicitMappingWins` | http4k-format/moshi/src/main/kotlin/org/http4k/format/ConfigurableMoshi.kt:176-184 | after `done()`, a type that a factory registered before `done()` accepts resolves to the first such factory, never to a built-in adapter or the reflective fallback; when those factories are all mappings, that is the first mapping registered for the type |
| `MoshiConfiguration.ReflectiveIsLastResort` | http4k-format/moshi/src/main/kotlin/org/http4k/format/ConfigurableMoshi.kt:184 | a type nothing else accepts, and that the reflective factory can take, resolves to the reflective factory |
| `MoshiConfiguration.UnsupportedType` | http4k-format/moshi/src/main/kotlin/org/http4k/format/ConfigurableMoshi.kt:176-184 | a type that no factory accepts does not resolve |
| `MoshiConfiguration.UnitResolvesToUnitAdapter` | http4k-format/moshi/src/main/kotlin/org/http4k/format/ConfigurableMoshi.kt:183 | `Unit` resolves to `UnitAdapter` unless a mapping for it was registered first |

## Findings

| source | as written | input that shows it | evidently intended | confidence | as-written member | corrected member |
|---|---|---|---|---|---|---|
| http4k-format/moshi/src/main/kotlin/org/http4k/format/MoshiModel.kt:62 | `NULL -> MoshiNode.MoshiNull` answers without calling `nextNull()`, so the null token stays unread | `[null]` never finishes (the array loop sees the same null again and again); `{"a":null}` fails with "expected name" at the null; a top-level `null` leaves the reader in front of it | consume the token with `nextNull()` before answering `MoshiNull` | high, not executed | `MoshiNodeAsWritten.NullElementDiverges` | `MoshiNodeProperties.RoundTrip` |

`MoshiNodeAsWritten.ParseAsWritten` is the reader as written, and `NullElementDiverges`,
`NullFieldThrows`, `NullValueUnread`, `LeadingNullElementDiverges` and `LeadingNullFieldThrows`
show the failures. `MoshiNodeAdapter.Parse` and `MoshiNodeAdapter.FromJson` are the corrected
reader, which the rest of the model uses, and `MoshiNodeProperties.RoundTrip` is its round
trip. `MoshiNodeAsWritten.ParseAgrees` shows that the two readers agree on every stretch of
tokens without a null token, and `MoshiNodeAsWritten.AsWrittenRoundTrip` is the round trip the
code as written does satisfy: for nodes with no `MoshiNull` inside. A top-level `null` read
through `JsonAdapter.fromJson(String)` then fails Moshi's check that the document was fully
consumed; that check is not part of this model.

## Behaviour of note

- **`textValueOf` on a field that is not a string.** The code calls `text(it)` on the field,
  which throws "not a string node", so the answer is an error, not an absent value.
  `ConfigurableMoshi.TextValueOf` returns `Err(NotAStringNode)` in that case.
- **Registering a mapping for one type twice.** Moshi's `add` places each new factory after the
  earlier ones, and resolution takes the first match. So the earlier registration wins, which
  is what `MoshiConfiguration.ExplicitMappingWins` proves.

## Left out

- Character-level JSON lexing and the internals of `JsonReader`/`JsonWriter` and okio: tokens
  are given as a sequence.
- The text of `$path` in error messages: errors carry the token offset instead.
- JsonTokens.ReadLong: Moshi's `nextLong()` also accepts integral decimal forms such as
  `42.0`, and quoted numbers. The model's `nextLong()` accepts integer literals only. Such a
  literal is read here as a double.
- `MoshiNodeAdapter.create` (MoshiModel.kt:31-32) and `KotlinJsonAdapterFactory`: these are
  runtime reflection.
  - A type is an abstract key.
  - Which types a built-in factory accepts is a parameter of `done()`.
- `EventAdapter`, `ThrowableAdapter` and `CollectionEdgeCasesAdapter`: their code is not part
  of this model. Only their place in the registration order is modelled.
- Moshi's own standard adapters, which Moshi consults after the builder's factories.
- Floating point, because no floating-point arithmetic is modelled. `Double` payloads of a
  number node and the `double` mapping are modelled with the opaque `Float64`, which stands for
  the literal it was read from. Left out are:
  - the `Double?`, `BigDecimal` and `BigInteger` `asJsonValue` builders
    (ConfigurableMoshi.kt:79, 83-85);
  - the `bigInteger` and `bigDecimal` mappings (ConfigurableMoshi.kt:149-153).
- Writing a double: the model writes back the literal the double was read from, where Moshi
  writes `Double.toString()`. The round trip is proved only for nodes whose numbers are
  `Long`s.
- ConfigurableMoshi.Integer: `toLong()` of a double payload (truncation toward zero) is the
  opaque `TruncatedDouble`.
- ConfigurableMoshi.Decimal: `BigDecimal(toDouble())` is the opaque `DecimalOfDouble`, so the
  precision lost when a `Long` is widened to a double is not modelled.
- ConfigurableMoshi.AsJsonValueInt: an `Int` payload is held as a `Long`. Kotlin's
  `MoshiNumber(1)` and `MoshiNumber(1L)` are different values, and the model identifies them.
- MoshiConfiguration.UnitFromJson: this reads the value with the node reader of this model.
  Moshi's `readJsonValue()` also rejects an object that repeats a key, and it reads every
  number with `nextDouble()`. Its code is not part of this model.
- `asFormatString`, `asA`, `asJsonString`, `asJsonObject(Any)` and `String.asJsonObject()`
  (ConfigurableMoshi.kt:38-46, 67, 73, 138): these are thin wrappers over Moshi's text
  encoding.
- `Body.auto`, `autoBody` and `WsMessage.auto` (ConfigurableMoshi.kt:48-65): these are HTTP
  lens plumbing.
- Pretty and compact printing (ConfigurableMoshi.kt:69-71), which are the same text encoding.
- MoshiNodeAdapter.Parse: reads a null token with `nextNull()`, the corrected behaviour under
  Findings. The code as written is `MoshiNodeAsWritten.ParseAsWritten`.
- MoshiNodeAdapter.ParseElements: as corrected, so `[null]` reads as an array; as written the
  loop never ends (`MoshiNodeAsWritten.ElementsAsWritten`).
- MoshiNodeAdapter.ParseFields: as corrected, so `{"a":null}` reads as an object; as written it
  fails with "expected name" (`MoshiNodeAsWritten.FieldsAsWritten`).
- MoshiNodeAdapter.FromJson: the corrected reader, which calls `nextNull()`. No method models
  the code as written, because a loop that may never end has no termination measure; the
  function `MoshiNodeAsWritten.ParseAsWritten` models it instead, with `Diverges` as an outcome.
- MoshiNodeAdapter.ReadElements: the corrected loop, which terminates because every element
  read consumes a token; the loop as written does not terminate on `[null]`.
- MoshiNodeAdapter.ReadFields: the corrected loop; as written `{"a":null}` fails with
  "expected name".
- MoshiNodeProperties.ParseSerialise: holds of the corrected reader. Of the code as written it
  holds only for nodes with no `MoshiNull` inside (`MoshiNodeAsWritten.AsWrittenRoundTrip`).
- MoshiNodeProperties.ObjectRoundTrip: the same, for objects.
- MoshiNodeProperties.ArrayRoundTrip: the same, for arrays.
- MoshiNodeProperties.FieldsRoundTrip: the same, for object bodies.
- MoshiNodeProperties.ElementsRoundTrip: the same, for array bodies.
- MoshiNodeProperties.RoundTrip: the same, for whole documents.
- MoshiNodeProperties.WriteThenRead: the same, for the writer and reader methods.
- MoshiNodeProperties.ExpectedNameAfterFields: about the corrected reader. As written, a field
  holding null before the bad token already fails at the null.
- MoshiNodeProperties.BareValueInObject: the same.
- MoshiNodeProperties.RepeatedKeysLastWins: about the corrected reader. As written, a repeated
  key holding null fails with "expected name" instead.
- JsonTokens.TokenWriter.Write: models a writer that writes every call. Moshi's default writer
  has `serializeNulls` off, so `name(k)` followed by `nullValue()` writes neither, and an object
  field holding `MoshiNull` disappears from the output.
- MoshiNodeAdapter.ToJson: for the same reason, with `serializeNulls` off Moshi drops the fields
  that hold `MoshiNull`; the model writes them, as a writer with `serializeNulls` on does.
- JsonTokens.ReadDouble: accepts every number literal. Strict `nextDouble()` throws on a literal
  outside the range of a double, such as `1e400` or an integer of 400 digits, so `fromJson`
  fails at MoshiModel.kt:85 where the model reads a double.
- JsonTokens.ReadString: accepts string tokens only. Moshi's `nextString()` also accepts a
  number token and returns its text, so the `text` mapping also reads numbers.
- JsonTokens.ReadInt: accepts integer literals only. Moshi's `nextInt()` also accepts integral
  decimal forms such as `42.0`, and quoted numbers.
- MoshiConfiguration.DecodeMapped: `mapping.asOut` is user code, which may throw; the model
  treats it as a total function.
- MoshiConfiguration.MappedFromJson: the same.
- MoshiConfiguration.EncodeMapped: `mapping.asIn` is user code, which may throw; the model
  treats it as a total function.
- Object equality: an object's map is a sequence of entries, so Dafny's `==` on two
  `MoshiObject`s depends on the order of their entries, where Kotlin's `Map.equals` does not.
  No lemma states that two objects differ.
