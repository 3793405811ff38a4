# OpenSearch .NET client core, modelled in Dafny

This project models a handful of the client's building blocks and proves what they promise:

- **Index names** (`IndexName`). An index name is a plain name, a `cluster:name` pair, or a placeholder standing for a CLR type. The model covers how a string is parsed, how a name is rendered, the three equality entry points and `==`, and resolution through the client settings (`IndexNames`, `index_name.dfy`).
- **Field inference**. A field is a raw string, a property or a member-access expression, and it is turned into the dotted path sent on the wire. The model covers the boost carried in `name^boost`, the naming precedence (hard rename, client attribute, serializer name, default inferrer), and the resolver that caches per settings instance. The resolver is a class whose `Resolve` updates its caches (`FieldInference`, `field_inference.dfy`). The documentation's own expectations are restated over the model in `FieldInferenceTests` (`field_inference_tests.dfy`).
- **The response envelope scan**. Both response formatters run the same loop over a response body's top-level object. Two reserved keys, `error` and `status`, fill the response's `Error` and `StatusCode`. Every other property is decoded into a payload dictionary, and a key seen twice fails as `Dictionary.Add` does. The scan is specified once, as a fold over the object's properties (`ResponseScan`, `response_scan.dfy`).
- **The resolvable dictionary** (`ResolvableDictionaryProxy`). This read-only dictionary's typed keys are looked up by the string they resolve to. The module also holds the typed-key formatter, an imperative loop proved against the scan (`ResolvableDictionary`, `resolvable_dictionary.dfy`).
- **Dynamic responses**. The dynamic formatter keeps the payload as loosely typed data, and `Get<T>(path)` walks that data by dot-separated keys (`DynamicResponses`, `dynamic_response.dfy`).
- **Time units**. The `TimeUnit` enum and its wire strings (`TimeUnits`, `time_unit.dfy`).

Two support modules hold shared helpers:

- `Wrappers` (`wrappers.dfy`): `Option` and `Result`.
- `Clr` (`clr.dfy`): the few .NET string operations the core relies on. These are `string.IsNullOrEmpty`, `string.IsNullOrWhiteSpace` with the .NET white-space set, `IndexOf`, and splitting and joining on one character, with their round-trip lemmas.

C# `null` is modelled as `Option.None` wherever the source tests for it. Exceptions are modelled as the `Failure` side of a `Result`.

The callers supply everything the core cannot see, as parameters:

- the connection settings' inferrer (`ConnectionSettings.inferIndexName`);
- the settings' rename and attribute tables;
- the serializer's verbatim names;
- `DefaultFieldNameInferrer`;
- `Sanitize`, i.e. `key.GetString(settings)`;
- the key, value and structured-error formatters (`Decoders`);
- `default(TValue)`;
- the conversion behind `Get<T>`.

## Model

| member | source | states |
|---|---|---|
| Clr.IndexOf | src/OpenSearch.Client/CommonAbstractions/Infer/IndexName/IndexName.cs:96 | the first position of the character, or -1 exactly when it does not occur |
| IndexNames.Parse | src/OpenSearch.Client/CommonAbstractions/Infer/IndexName/IndexName.cs:92-106 | gives null exactly for a null or all-white-space string; otherwise a name with no type |
| IndexNames.ParseBlank | src/OpenSearch.Client/CommonAbstractions/Infer/IndexName/IndexName.cs:94 | null, empty and .NET white-space-only strings convert to no index name |
| IndexNames.ParseSplitsAtFirstSeparator | src/OpenSearch.Client/CommonAbstractions/Infer/IndexName/IndexName.cs:96-102 | a string with `:` splits at its first `:`: the colon-free cluster, then the whole rest as the name |
| IndexNames.ParseWithoutSeparator | src/OpenSearch.Client/CommonAbstractions/Infer/IndexName/IndexName.cs:105 | a string without `:` becomes a bare name |
| IndexNames.ToStringParseRoundTrip | src/OpenSearch.Client/CommonAbstractions/Infer/IndexName/IndexName.cs:92-139 | rendering a parsed string gives the string back unless its first `:` is its first or last character |
| IndexNames.RoundTripFailsAtTheEdges | src/OpenSearch.Client/CommonAbstractions/Infer/IndexName/IndexName.cs:96-139 | `:logs` renders back as `logs` and `prod:` as the empty string |
| IndexNames.QualifiedRoundTrip | src/OpenSearch.Client/CommonAbstractions/Infer/IndexName/IndexName.cs:98-139 | a qualified name renders as `cluster:name` and that string parses back to it |
| IndexNames.FromType | src/OpenSearch.Client/CommonAbstractions/Infer/IndexName/IndexName.cs:110 | a null type converts to null; a type converts to a type-derived name with no name and no cluster |
| IndexNames.FromTypeInCluster | src/OpenSearch.Client/CommonAbstractions/Infer/IndexName/IndexName.cs:80-82 | `From<T>(cluster)` carries the type and the cluster and no name |
| IndexNames.Rebuild | src/OpenSearch.Client/CommonAbstractions/Infer/IndexName/IndexName.cs:84 | all three properties as given |
| IndexNames.PrefixClusterName | src/OpenSearch.Client/CommonAbstractions/Infer/IndexName/IndexName.cs:137-139 | null exactly when the cluster is null or empty and the name is null; with a non-empty cluster, `cluster:` then the name, a null name counting as empty |
| IndexNames.ToString | src/OpenSearch.Client/CommonAbstractions/Infer/IndexName/IndexName.cs:129-135 | defines the rendering; its cases are stated by `ToStringCases` |
| IndexNames.ToStringCases | src/OpenSearch.Client/CommonAbstractions/Infer/IndexName/IndexName.cs:129-139 | the non-empty name, else the type's name, else empty; prefixed by `cluster:` exactly when the cluster is non-empty |
| IndexNames.EqualsString | src/OpenSearch.Client/CommonAbstractions/Infer/IndexName/IndexName.cs:141 | true only for a non-empty string, and for a named index name only for its rendering |
| IndexNames.EqualsMarker | src/OpenSearch.Client/CommonAbstractions/Infer/IndexName/IndexName.cs:143-152 | never true of null; when either side is nameless, true only if both carry the same type |
| IndexNames.Equals | src/OpenSearch.Client/CommonAbstractions/Infer/IndexName/IndexName.cs:112 | true only for a string or an index name; null and other objects are unequal |
| IndexNames.OperatorEquals | src/OpenSearch.Client/CommonAbstractions/Infer/IndexName/IndexName.cs:125 | two nulls are equal, a null and a non-null are not; otherwise `Equals` decides |
| IndexNames.NamedEquality | src/OpenSearch.Client/CommonAbstractions/Infer/IndexName/IndexName.cs:143-147 | two named index names are equal iff their renderings are |
| IndexNames.UnnamedEquality | src/OpenSearch.Client/CommonAbstractions/Infer/IndexName/IndexName.cs:149-151 | otherwise equal iff the clusters agree (or both are empty) and both carry the same type |
| IndexNames.NeverEqualToNull | src/OpenSearch.Client/CommonAbstractions/Infer/IndexName/IndexName.cs:112-145 | no index name equals null through `Equals`, `EqualsMarker`, `EqualsString` or `==` |
| IndexNames.EqualsSymmetric | src/OpenSearch.Client/CommonAbstractions/Infer/IndexName/IndexName.cs:143-152 | `EqualsMarker` and `==` are symmetric |
| IndexNames.EqualsReflexiveIff | src/OpenSearch.Client/CommonAbstractions/Infer/IndexName/IndexName.cs:143-152 | an index name equals itself iff it has a non-empty name or a type; `prod:` or a bare `Rebuild` is unequal to itself |
| IndexNames.ParsedUnnamedIsUnequalToItself | src/OpenSearch.Client/CommonAbstractions/Infer/IndexName/IndexName.cs:96-152 | the string `prod:` converts to an index name that is unequal to itself, through `EqualsMarker` and `==` |
| IndexNames.EqualsNotTransitive | src/OpenSearch.Client/CommonAbstractions/Infer/IndexName/IndexName.cs:143-152 | named-and-typed `x` equals the bare type, which equals named `y`, yet `x` differs from `y` |
| IndexNames.EqualsStringMeaning | src/OpenSearch.Client/CommonAbstractions/Infer/IndexName/IndexName.cs:112-141 | a string equals a named index name iff it is non-empty and is its rendering; `Equals(object)` on a string is `EqualsString` |
| IndexNames.EqualsStringIgnoresTypeName | src/OpenSearch.Client/CommonAbstractions/Infer/IndexName/IndexName.cs:134-141 | `From<T>("prod")` renders as `prod:T` but equals the string `prod:` and not its own rendering |
| IndexNames.GetString | src/OpenSearch.Client/CommonAbstractions/Infer/IndexName/IndexName.cs:70-76 | fails exactly without client settings; otherwise the settings' inferrer's answer |
| TimeUnits.FromOrdinal | src/OpenSearch.Client/CommonOptions/TimeUnit/TimeUnit.cs:35-57 | an integer names a member exactly when it is 0 to 6, and that member's value is the integer |
| TimeUnits.GetStringValue | src/OpenSearch.Client/CommonOptions/TimeUnit/TimeUnit.cs:61-78 | each member's string is the value of its `EnumMember` attribute |
| TimeUnits.GetStringValueOf | src/OpenSearch.Client/CommonOptions/TimeUnit/TimeUnit.cs:61-80 | out-of-range values fail with that value; the seven members give their string |
| TimeUnits.GetStringValueInjective | src/OpenSearch.Client/CommonOptions/TimeUnit/TimeUnit.cs:65-78 | distinct units give distinct strings |
| TimeUnits.GetStringValueIsLowerAscii | src/OpenSearch.Client/CommonOptions/TimeUnit/TimeUnit.cs:65-78 | every string is non-empty lower-case ASCII |
| FieldInference.ParseFieldName | src/Tests/ClientConcepts/HighLevel/Inference/FieldInference.doc.cs:127-140 | splits at the first `^`: a `^`-free name and the boost text, which rejoin to the input; no `^` means no boost |
| FieldInference.FieldFromString | src/Tests/ClientConcepts/HighLevel/Inference/FieldInference.doc.cs:107-119 | defines the string conversion; `NameCanSpecifyBoost` and `NameWithoutBoost` state its outcomes |
| FieldInference.NameCanSpecifyBoost | src/Tests/ClientConcepts/HighLevel/Inference/FieldInference.doc.cs:127-140 | `name^b` gives name `name` and boost `b`, overriding a boost passed alongside |
| FieldInference.NameWithoutBoost | src/Tests/ClientConcepts/HighLevel/Inference/FieldInference.doc.cs:32-46 | a name without `^` is kept with the boost passed alongside |
| FieldInference.FieldEquals | src/Tests/ClientConcepts/HighLevel/Inference/FieldInference.doc.cs:79-102 | defines field equality by the boost-free identity; `EqualityIgnoresBoost` and `BoostedNamesAreEqual` state it |
| FieldInference.EqualityIgnoresBoost | src/Tests/ClientConcepts/HighLevel/Inference/FieldInference.doc.cs:79-102 | changing only the boost leaves a field equal |
| FieldInference.BoostedNamesAreEqual | src/Tests/ClientConcepts/HighLevel/Inference/FieldInference.doc.cs:79-102 | `"name^2"` and `"name^3"` are both named `name` and are equal |
| FieldInference.AppendSuffix | src/Tests/ClientConcepts/HighLevel/Inference/FieldInference.doc.cs:267-287 | the expression keeps its chain and gains exactly one suffix step |
| FieldInference.CamelCase | src/Tests/ClientConcepts/HighLevel/Inference/FieldInference.doc.cs:180-196 | same length; only an upper-case ASCII first letter changes, to lower case |
| FieldInference.InferMemberName | src/Tests/ClientConcepts/HighLevel/Inference/FieldInference.doc.cs:397-407 | defines the precedence ladder; `HardRenameWins` and `PrecedenceLadder` state it |
| FieldInference.HardRenameWins | src/Tests/ClientConcepts/HighLevel/Inference/FieldInference.doc.cs:397-405 | a settings rename wins whatever the attributes, serializer and inferrer say |
| FieldInference.PrecedenceLadder | src/Tests/ClientConcepts/HighLevel/Inference/FieldInference.doc.cs:397-405 | removing the rules from the top exposes attribute, then serializer, then the inferrer on the CLR name |
| FieldInference.StepSegments | src/Tests/ClientConcepts/HighLevel/Inference/FieldInference.doc.cs:199-261 | a step contributes at most one segment, and none exactly when it is an indexer or `.First()` |
| FieldInference.Segments | src/Tests/ClientConcepts/HighLevel/Inference/FieldInference.doc.cs:199-261 | no more segments than steps |
| FieldInference.Path | src/Tests/ClientConcepts/HighLevel/Inference/FieldInference.doc.cs:199-261 | defines the dotted path; `PathExtend`, `TransparentIsInvisible`, `KeysAndSuffixesAreVerbatim` and `PathSplitsIntoSegments` state it |
| FieldInference.SegmentsAppend | src/Tests/ClientConcepts/HighLevel/Inference/FieldInference.doc.cs:199-261 | the segments of a concatenated chain are the concatenated segments |
| FieldInference.PathExtend | src/Tests/ClientConcepts/HighLevel/Inference/FieldInference.doc.cs:199-261 | one more step adds `.segment` to the path, or nothing for a transparent step |
| FieldInference.TransparentIsInvisible | src/Tests/ClientConcepts/HighLevel/Inference/FieldInference.doc.cs:205-211 | an indexer or `.First()` anywhere in a chain leaves the path unchanged |
| FieldInference.KeysAndSuffixesAreVerbatim | src/Tests/ClientConcepts/HighLevel/Inference/FieldInference.doc.cs:213-261 | a dictionary key or a suffix is appended as `.x`, never renamed or cased |
| FieldInference.PathSplitsIntoSegments | src/Tests/ClientConcepts/HighLevel/Inference/FieldInference.doc.cs:199-261 | splitting a path at `.` gives its segments back when none contains a `.` |
| FieldInference.FieldName | src/Tests/ClientConcepts/HighLevel/Inference/FieldInference.doc.cs:32-46 | defines a field's boost-free name; `RawStringsAreVerbatim` and `BoostDoesNotChangeName` state it |
| FieldInference.Rendered | src/Tests/ClientConcepts/HighLevel/Inference/FieldInference.doc.cs:146-173 | defines the serialised field, name then `^boost`; `BoostRoundTrip` states it |
| FieldInference.RawStringsAreVerbatim | src/Tests/ClientConcepts/HighLevel/Inference/FieldInference.doc.cs:180-196 | a string field resolves to itself under any inferrer |
| FieldInference.BoostDoesNotChangeName | src/Tests/ClientConcepts/HighLevel/Inference/FieldInference.doc.cs:79-102 | equal fields resolve to the same name |
| FieldInference.BoostRoundTrip | src/Tests/ClientConcepts/HighLevel/Inference/FieldInference.doc.cs:146-173 | a field written `name^b` renders as `name^b` |
| FieldInference.FieldResolver.constructor | src/Tests/ClientConcepts/HighLevel/Inference/FieldInference.doc.cs:48-54 | a new resolver has empty caches and is consistent with its settings |
| FieldInference.FieldResolver.CachedFields | src/Tests/ClientConcepts/HighLevel/Inference/FieldInference.doc.cs:52 | the number of cached expressions; its changes are stated by `ResolveExpression` and `Resolve` |
| FieldInference.FieldResolver.CachedProperties | src/Tests/ClientConcepts/HighLevel/Inference/FieldInference.doc.cs:53 | the number of cached properties; its changes are stated by `ResolveProperty` and `Resolve` |
| FieldInference.FieldResolver.ResolveExpression | src/Tests/ClientConcepts/HighLevel/Inference/FieldInference.doc.cs:56-77 | returns the expression's path and caches it under (root, chain), growing the cache only for a new key |
| FieldInference.FieldResolver.ResolveProperty | src/Tests/ClientConcepts/HighLevel/Inference/FieldInference.doc.cs:48-54 | returns the property's inferred name and caches it |
| FieldInference.FieldResolver.Resolve | src/Tests/ClientConcepts/HighLevel/Inference/FieldInference.doc.cs:56-77 | returns the name plus `^boost`; caches only expressions and properties, boost-free; keeps every cached entry equal to what the settings compute |
| FieldInferenceTests.UsingConstructors | src/Tests/ClientConcepts/HighLevel/Inference/FieldInference.doc.cs:32-46 | string, property and expression for `Project.Name` all give `name` |
| FieldInferenceTests.UsingStaticPropertyField | src/Tests/ClientConcepts/HighLevel/Inference/FieldInference.doc.cs:146-173 | `name` with boost 2.1, given as a string or as an expression, renders as `name^2.1` |
| FieldInferenceTests.DefaultFieldNameInferrer | src/Tests/ClientConcepts/HighLevel/Inference/FieldInference.doc.cs:180-196 | an upper-casing inferrer gives `NAME`; a string `NaMe` is kept; the identity inferrer gives `Name` |
| FieldInferenceTests.MemberChains | src/Tests/ClientConcepts/HighLevel/Inference/FieldInference.doc.cs:202-203 | `p.LeadDeveloper.FirstName` gives `leadDeveloper.firstName` |
| FieldInferenceTests.CollectionIndexers | src/Tests/ClientConcepts/HighLevel/Inference/FieldInference.doc.cs:205-210 | `p.CuratedTags[0].Added` gives `curatedTags.added` |
| FieldInferenceTests.DictionaryIndexers | src/Tests/ClientConcepts/HighLevel/Inference/FieldInference.doc.cs:213-216 | `p.Metadata["hardcoded"]` gives `metadata.hardcoded` |
| FieldInferenceTests.SuffixExpressions | src/Tests/ClientConcepts/HighLevel/Inference/FieldInference.doc.cs:224-231 | `p.LeadDeveloper.FirstName.Suffix("raw")` gives `leadDeveloper.firstName.raw` |
| FieldInferenceTests.AttributeBasedNaming | src/Tests/ClientConcepts/HighLevel/Inference/FieldInference.doc.cs:293-338 | a client attribute gives `naam`, a serializer attribute `nameInJson`, and with both the client attribute wins |
| FieldInferenceTests.PrecedenceIsAsExpected | src/Tests/ClientConcepts/HighLevel/Inference/FieldInference.doc.cs:441-457 | `renamed`, `nestAtt`, `jsonProp` and `ask` for the four upper precedence levels |
| FieldInferenceTests.PrecedenceFallsThroughToInferrer | src/Tests/ClientConcepts/HighLevel/Inference/FieldInference.doc.cs:421-458 | an unmapped property is upper-cased by the custom inferrer |
| FieldInferenceTests.CachingFieldsShouldNotLeak | src/Tests/ClientConcepts/HighLevel/Inference/FieldInference.doc.cs:56-77 | the same expression twice, then boosted, then from another type: 1, 1 and 2 cached fields |
| FieldInferenceTests.PathsOfC | src/Tests/ClientConcepts/HighLevel/Inference/FieldInference.doc.cs:347-395 | `C.Name` from `A` or `B` is `c.name`, except from `A` under the rename of `A.C` to `d`, where it is `d.name` |
| FieldInferenceTests.ResolveOnBoth | src/Tests/ClientConcepts/HighLevel/Inference/FieldInference.doc.cs:359-363 | one resolver gives `c.name` (or `d.name` under the rename) for `A` and `c.name` for `B` |
| FieldInferenceTests.ExpressionsAreCachedButSeeDifferentTypes | src/Tests/ClientConcepts/HighLevel/Inference/FieldInference.doc.cs:354-395 | a second settings instance's rename does not leak into the first instance's cached results |
| ResponseScan.Scan | src/OpenSearch.Client/CommonAbstractions/Response/ResolvableDictionaryProxy.cs:117-149 | a successful scan's payload never holds a key twice |
| ResponseScan.Step | src/OpenSearch.Client/CommonAbstractions/Response/ResolvableDictionaryProxy.cs:120-148 | a reserved property leaves the payload alone; a payload property appends exactly one entry and leaves error and status alone |
| ResponseScan.FailureIsSticky | src/OpenSearch.Client/CommonAbstractions/Response/ResolvableDictionaryProxy.cs:117-149 | a failure on a prefix of the object is the failure of the whole scan |
| ResponseScan.PayloadIsDecodedNonReserved | src/OpenSearch.Client/CommonAbstractions/Response/ResolvableDictionaryProxy.cs:141-148 | the payload is the non-reserved properties decoded, one entry each, in document order |
| ResponseScan.StatusIsLastNumber | src/OpenSearch.Client/CommonAbstractions/Response/ResolvableDictionaryProxy.cs:133-138 | `StatusCode` is the last numeric `status`; other `status` tokens are skipped |
| ResponseScan.ErrorIsLastErrorField | src/OpenSearch.Client/CommonAbstractions/Response/ResolvableDictionaryProxy.cs:124-132 | `Error` comes from the last `error`: a string becomes the reason, anything else is whatever the error decoder gives, null included |
| ResponseScan.ScanSucceedsIff | src/OpenSearch.Client/CommonAbstractions/Response/ResolvableDictionaryProxy.cs:117-149 | the scan succeeds iff every structured error, key and value decodes and no two payload keys decode alike |
| ResponseScan.DuplicateKeyFails | src/OpenSearch.Client/CommonAbstractions/Response/ResolvableDictionaryProxy.cs:147 | a key that decodes twice fails the scan rather than overwriting |
| ResponseScan.NullErrorClearsEarlierError | src/OpenSearch.Client/CommonAbstractions/Response/ResolvableDictionaryProxy.cs:124-132 | an `error` object the error formatter decodes to null, after a string `error`, leaves `Error` null |
| ResponseScan.StepReserved | src/OpenSearch.Client/CommonAbstractions/Response/ResolvableDictionaryProxy.cs:120-139 | a reserved key fails the step only as a structured error that does not decode |
| ResponseScan.StepEntry | src/OpenSearch.Client/CommonAbstractions/Response/ResolvableDictionaryProxy.cs:141-148 | a payload property passes the step iff its key and value decode to a new key |
| ResolvableDictionary.RekeyIsLastValue | src/OpenSearch.Client/CommonAbstractions/Response/ResolvableDictionaryProxy.cs:48-52 | the string map holds a string iff some key resolves to it, with the value of the last such key |
| ResolvableDictionary.Rekey | src/OpenSearch.Client/CommonAbstractions/Response/ResolvableDictionaryProxy.cs:48-52 | defines the string-keyed map; `RekeyIsLastValue`, `RekeyKeys` and `RekeyCount` state it |
| ResolvableDictionary.RekeyKeys | src/OpenSearch.Client/CommonAbstractions/Response/ResolvableDictionaryProxy.cs:48-52 | the string map's keys are exactly the resolved original keys |
| ResolvableDictionary.LastValueIsLastMatch | src/OpenSearch.Client/CommonAbstractions/Response/ResolvableDictionaryProxy.cs:49-50 | the value found is the one of the last key resolving to the string; nothing is found iff no key resolves to it |
| ResolvableDictionary.RekeyCount | src/OpenSearch.Client/CommonAbstractions/Response/ResolvableDictionaryProxy.cs:48-55 | no more resolved keys than original keys, and fewer when two keys resolve alike |
| ResolvableDictionary.ResolvableDictionaryProxy.constructor | src/OpenSearch.Client/CommonAbstractions/Response/ResolvableDictionaryProxy.cs:41-53 | a null dictionary gives an empty proxy; otherwise the string map is built from the keys in order |
| ResolvableDictionary.ResolvableDictionaryProxy.Count | src/OpenSearch.Client/CommonAbstractions/Response/ResolvableDictionaryProxy.cs:55 | the number of resolved keys, at most the number of keys and fewer on a collision |
| ResolvableDictionary.ResolvableDictionaryProxy.Get | src/OpenSearch.Client/CommonAbstractions/Response/ResolvableDictionaryProxy.cs:57 | the value of the last original key resolving like the key, else default |
| ResolvableDictionary.ResolvableDictionaryProxy.GetByString | src/OpenSearch.Client/CommonAbstractions/Response/ResolvableDictionaryProxy.cs:58 | the value of the last original key resolving to the string, else default |
| ResolvableDictionary.ResolvableDictionaryProxy.ContainsKey | src/OpenSearch.Client/CommonAbstractions/Response/ResolvableDictionaryProxy.cs:72 | true iff some original key resolves like the key |
| ResolvableDictionary.ResolvableDictionaryProxy.TryGetValue | src/OpenSearch.Client/CommonAbstractions/Response/ResolvableDictionaryProxy.cs:74-75 | found iff `ContainsKey`, with the indexer's value; default when not found |
| ResolvableDictionary.ResolvableDictionaryProxy.Keys | src/OpenSearch.Client/CommonAbstractions/Response/ResolvableDictionaryProxy.cs:60 | the original typed keys in order |
| ResolvableDictionary.ResolvableDictionaryProxy.ResolvedKeys | src/OpenSearch.Client/CommonAbstractions/Response/ResolvableDictionaryProxy.cs:61 | the strings the original keys resolve to |
| ResolvableDictionary.TypedIndexerIsStringIndexer | src/OpenSearch.Client/CommonAbstractions/Response/ResolvableDictionaryProxy.cs:57-77 | the typed indexer is the string indexer at the resolved key; `ContainsKey` is membership among the resolved keys |
| ResolvableDictionary.AbsentKeyIsDefault | src/OpenSearch.Client/CommonAbstractions/Response/ResolvableDictionaryProxy.cs:57-75 | a key not contained reads as default, and `TryGetValue` reports not found with default |
| ResolvableDictionary.OriginalKeyIsFound | src/OpenSearch.Client/CommonAbstractions/Response/ResolvableDictionaryProxy.cs:48-57 | an original key is contained and reads its own value unless a later key resolves alike |
| ResolvableDictionary.DictionaryResponse.constructor | src/OpenSearch.Client/CommonAbstractions/Response/ResolvableDictionaryProxy.cs:111 | a new response has no error, no status and no dictionary |
| ResolvableDictionary.Deserialize | src/OpenSearch.Client/CommonAbstractions/Response/ResolvableDictionaryProxy.cs:109-155 | fails exactly when the scan does, with its failure; otherwise a fresh response with the scan's error and status and a fresh proxy over its payload |
| ResolvableDictionary.Serialize | src/OpenSearch.Client/CommonAbstractions/Response/ResolvableDictionaryProxy.cs:157-158 | always fails |
| DynamicResponses.Lookup | src/OpenSearch.Client/CommonAbstractions/Response/DynamicResponseBase.cs:46-52 | finds nothing iff no entry has the key; otherwise the value of the first entry with the key |
| DynamicResponses.Descend | src/OpenSearch.Client/CommonAbstractions/Response/DynamicResponseBase.cs:46-52 | defines the walk through nested objects; `DescendAppend` states it |
| DynamicResponses.GetPath | src/OpenSearch.Client/CommonAbstractions/Response/DynamicResponseBase.cs:46-52 | defines the dot-path lookup; `SingleKey`, `DottedPath` and `MissingIntermediate` state it |
| DynamicResponses.GetAs | src/OpenSearch.Client/CommonAbstractions/Response/DynamicResponseBase.cs:46-52 | the converted value at the path, or default when the path leads nowhere or the value does not convert |
| DynamicResponses.DescendAppend | src/OpenSearch.Client/CommonAbstractions/Response/DynamicResponseBase.cs:46-52 | walking two key lists in turn is walking their concatenation; a dead end stays dead |
| DynamicResponses.SingleKey | src/OpenSearch.Client/CommonAbstractions/Response/DynamicResponseBase.cs:46-52 | a dot-free path is a top-level lookup |
| DynamicResponses.DottedPath | src/OpenSearch.Client/CommonAbstractions/Response/DynamicResponseBase.cs:46-52 | `a.rest` looks up `a`, then walks `rest`'s keys from there |
| DynamicResponses.MissingIntermediate | src/OpenSearch.Client/CommonAbstractions/Response/DynamicResponseBase.cs:46-52 | a missing first key makes the path absent and `Get` return default, never an error |
| DynamicResponses.DynamicResponse.constructor | src/OpenSearch.Client/CommonAbstractions/Response/DynamicResponseBase.cs:54 | a new response has no error, no status and an empty backing dictionary |
| DynamicResponses.DynamicResponse.Get | src/OpenSearch.Client/CommonAbstractions/Response/DynamicResponseBase.cs:52 | default when the path leads nowhere, else the converted value or default |
| DynamicResponses.FreshResponseIsEmpty | src/OpenSearch.Client/CommonAbstractions/Response/DynamicResponseBase.cs:54 | on an unfilled response every path is absent and `Get` gives default |
| DynamicResponses.Deserialize | src/OpenSearch.Client/CommonAbstractions/Response/DynamicResponseBase.cs:61-107 | fails exactly when the scan does, with its failure; otherwise a fresh response holding the scan's error, status and payload |

## Left out

- Hash codes (`IndexName.GetHashCode`, `Field.GetHashCode`) are left out. They are runtime values with no stable law. Name-based equality does not imply equal hashes: the name `a:b` with no cluster equals cluster `a` with name `b`, but their hashes differ.
- IndexNames.OperatorEquals: models `object.Equals(left, right)` without its reference-equality shortcut. Index names are values here, so an index name with neither a name nor a type is unequal to itself even through `==`. The string `prod:` converts to one (see `ParsedUnnamedIsUnequalToItself`), and so does a bare `Rebuild` (see `EqualsReflexiveIff`).
- `IndexName.And` and the `Indices` type are not part of this model.
- `DebugDisplay` is not modelled; it is a debugger aid.
- The `IsNullOrEmpty` extension is not part of this model. It is taken to be `string.IsNullOrEmpty`.
- The inferrer behind `GetString` (`Inferrer.IndexName`) is a parameter of the settings. Type-to-name inference is not part of this model.
- The field resolver's source is not part of this model. Its behaviour follows the documentation's expectations:
  - `Resolve` caches the boost-free name under the expression's (root type, chain) and then appends `^boost`;
  - a property-built field is memoised in `Properties`, not in `Fields`, and a string-built one is not cached. This is the model's own assumption: the documentation declares both counters but never resolves a property-built field before reading one;
  - a boost is split off a name at its first `^`;
  - the default inferrer lower-cases an upper-case ASCII first letter.
- FieldInference.BoostRoundTrip: holds for any boost text only because boosts are kept as text; it does not speak about formatting a `double`.
- FieldInference: boosts are kept as text, so the `double` value `2.1` and its invariant-culture formatting are outside the model.
- Field inference does not model expressions that capture variables and so cannot be cached. The model treats an indexer's argument by its evaluated value.
- Reflection and attribute discovery are abstracted as lookup maps on `Settings`. So is the serializer's `CreatePropertyMapping`.
- Thread safety of the per-settings caches is not modelled.
- `UsingConstructorAlsoSetsComparisonValue` in the field-inference documentation only checks hash codes beyond equality; the equality part is `BoostedNamesAreEqual`.
- The rest of the documentation's path expectations (the `.First()`, `metadata.var` and chained `.Suffix` variants) are instances of `TransparentIsInvisible`, `KeysAndSuffixesAreVerbatim` and `PathExtend`. They are not restated literally.
- The JSON reader is abstracted to the top-level object's properties, each a raw name and the token its value starts with. Left out with it:
  - `ReadIsInObject`;
  - `ReadPropertyNameSegmentRaw` and the `Offset - 1` re-read of the key;
  - `ReadNextBlock`;
  - `ReadInt32` overflow and fractional status numbers (a status is an unbounded integer).
- The reserved-name table `ResponseFormatterHelpers.ServerErrorFields` is not part of this model. Its two names are taken as `error` and `status`.
- `StatusCode` starts as null (`None`); `ResponseBase` is not part of this model.
- The inside of the structured `Error` and the value formatters are parameters (`Decoders`). Which exception a failing formatter throws is reduced to a message.
- `ResolvableDictionaryFormatterBase.Deserialize` and `ResolvableReadOnlyDictionaryFormatter.Create` are not modelled separately. They run an unseen dictionary formatter and then the proxy constructor, and that constructor is modelled.
- ResponseScan.Scan, ResolvableDictionary.ResolvableDictionaryProxy.constructor and ResolvableDictionary.Deserialize: typed keys `K` are compared by value. `Dictionary<TKey, TValue>` uses the key type's own comparer instead. The model assumes that comparer is reflexive value equality, which holds exactly for string keys. Index-name keys with no name and no type fall outside the model, because their `Equals` is not reflexive. With them, the source would add the same key twice instead of failing, and the proxy constructor's `backingDictionary[key]` would throw.
- ResolvableDictionary.ResolvableDictionaryProxy.Get: a null typed key (which `Sanitize` would turn into a null string and `TryGetValue` reject with an exception) is not modelled. Typed keys compare by value.
- ResolvableDictionary.ResolvableDictionaryProxy.ResolvedKeys: the order of the resolved keys (`Dictionary` enumeration order) is not modelled. They are a set.
- `Values` and the enumerators are left out. They enumerate `BackingDictionary` and `Original` as stored.
- `DynamicDictionary` is not part of this model. `Get<T>` follows its documented contract:
  - dot-separated keys through nested objects;
  - absent is default.

  Left out with it: its best-effort type conversions (a `convert` parameter here), numeric indices into arrays, and `DynamicDictionary.Create`'s wrapping of values.
- The dynamic formatter's `Serialize` (DynamicResponseBase.cs line 109) throws, like the typed one, which `ResolvableDictionary.Serialize` models.
