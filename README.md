# Dataverse Solr schema model in Dafny

This project models the typed, in-memory picture of a Solr search schema that
Dataverse keeps in its `search/schema` package. It proves properties of that
model.

The model covers:

- the closed registry of field properties (`SolrFieldProperty`): wire key, value type and optional default, with lookup by key;
- the catalog of 21 field types (`SolrFieldType`) and its `ALL` list;
- the field base (`schema/SolrField`): validated name, enum-keyed property map, name-only equality and the three `StdConf` presets;
- static and dynamic fields (`SolrStaticField`, `SolrDynamicField`): constructors and `build(rawMap)`;
- copy fields (`SolrCopyField`): endpoint checks, the 3000-character default limit and pair equality;
- the schema cache (`SolrSchemaCache`): the `_text_` field, conversion of metadata-block records, and the append-if-absent copy-field list;
- schema validation (`IndexCheckerBean.validateSchema`) over a schema value already fetched;
- the search-side field descriptor (`search/SolrField`) with its facet-name rule;
- emerging feature flags (`EmergingFeature.enabled`).

Java exceptions become `Failure` values of a `Result`. Java `null` becomes `None`.
All three field classes share one datatype, `Field(kind, properties)`. The kind
tag picks the naming rule: `^[A-Za-z_]\w+$` for static fields and field types,
`^\*_\w+$` for dynamic fields. Both patterns are character-class predicates.
Reference readings of `\w+` prove them equal to the regular expressions.

Two classes carry state that the source changes in place. `SolrSchemaCache.SchemaCache`
holds the cache maps and the copy-field list. `SearchField.SolrField` holds the
multivalued flag. Every other entity is a value that is never changed after
construction, so it is a datatype.

The model follows the code as written, including these behaviours a reader might not expect:

- `build(rawMap)` of a dynamic field applies no preset. A raw map of just a name and a type gives a field with just NAME and TYPE (`SolrFields.BuildNoPreset`).
- In `validateSchema`, an unresolved copy-field endpoint aborts validation with `NoSuchElementException`. It does not collect the errors and continue (`IndexChecker.ValidateUnresolved`).
- `loadSchema` never changes the static-field map. The `putIfAbsent` stream at `SolrSchemaCache.java:52` has no terminal operation, so it never runs.

Modules (one per file): `Wrappers` and `SchemaErrors` (wrappers.dfy),
`SolrFieldProperty`, `SolrField`, `SolrFieldType`, `SolrFields` (static and
dynamic fields), `SolrCopyField`, `SolrSchemaCache`, `IndexChecker`,
`SearchField`, `EmergingFeature`.

## Model

| member | source | states |
|---|---|---|
| SolrFieldProperty.ValuesComplete | src/main/java/edu/harvard/iq/dataverse/search/schema/SolrFieldProperty.java:8-52 | values() has 31 entries, holds every constant, and has no repeats |
| SolrFieldProperty.KeysDistinct | src/main/java/edu/harvard/iq/dataverse/search/schema/SolrFieldProperty.java:10-60 | no two entries share a wire key, so the members map is well defined |
| SolrFieldProperty.Members | src/main/java/edu/harvard/iq/dataverse/search/schema/SolrFieldProperty.java:57-60 | the members map sends each entry's key to that entry, and holds only keys of entries |
| SolrFieldProperty.Of | src/main/java/edu/harvard/iq/dataverse/search/schema/SolrFieldProperty.java:68-73 | of(null) is null; a found entry has exactly the given key; not found means no entry has that key |
| SolrFieldProperty.OfKey | src/main/java/edu/harvard/iq/dataverse/search/schema/SolrFieldProperty.java:59-72 | of(p.getKey()) is p, for every entry p |
| SolrFieldProperty.OfUnknown | src/main/java/edu/harvard/iq/dataverse/search/schema/SolrFieldProperty.java:72 | of(k) finds nothing exactly when k is no entry's key, and never another entry |
| SolrFieldProperty.DefaultsAsDeclared | src/main/java/edu/harvard/iq/dataverse/search/schema/SolrFieldProperty.java:30-35 | INDEXED and STORED default to "true"; MULTIVALUED and DOCVALUES default to "false"; names the exact set of entries without a default |
| SolrFieldProperty.BooleanDefaultsAreBooleans | src/main/java/edu/harvard/iq/dataverse/search/schema/SolrFieldProperty.java:24-46 | every Boolean entry with a default has "true" or "false" as that default |
| SolrField.BaseNameIsRegex | src/main/java/edu/harvard/iq/dataverse/search/schema/SolrField.java:33 | the base name predicate is exactly the language of ^[A-Za-z_]\w+$; such a name has at least two characters and no leading digit |
| SolrField.DynamicNameIsRegex | src/main/java/edu/harvard/iq/dataverse/search/schema/SolrDynamicField.java:9 | the dynamic name predicate is exactly the language of ^\*_\w+$ |
| SolrField.NameLanguagesDisjoint | src/main/java/edu/harvard/iq/dataverse/search/schema/SolrDynamicField.java:9 | no string is both a valid dynamic name and a valid static name |
| SolrField.NameExamples | src/main/java/edu/harvard/iq/dataverse/search/schema/SolrDynamicField.java:49-53 | "*_s" is a valid dynamic name and "name" is not; "_text_" and "id" are valid base names; "a", "1a" and "*_s" are not |
| SolrField.NewBase | src/main/java/edu/harvard/iq/dataverse/search/schema/SolrField.java:44-48 | the base constructor fails with an invalid-name error exactly when the name is null or invalid for the kind; otherwise the map is just NAME |
| SolrField.NewBaseGivesName | src/main/java/edu/harvard/iq/dataverse/search/schema/SolrField.java:47-57 | after construction NAME is present and getName() returns the given name |
| SolrField.GetProperty | src/main/java/edu/harvard/iq/dataverse/search/schema/SolrField.java:77-80 | getProperty(p) is present exactly when hasProperty(p), and then holds the mapped value |
| SolrField.EqualsIgnoresOtherProperties | src/main/java/edu/harvard/iq/dataverse/search/schema/SolrField.java:84-90 | equals holds exactly when the names agree; changing the kind or adding properties other than NAME never changes the answer |
| SolrField.EqualsIsEquivalence | src/main/java/edu/harvard/iq/dataverse/search/schema/SolrField.java:84-90 | field equality is reflexive, symmetric and transitive |
| SolrField.ConfigShape | src/main/java/edu/harvard/iq/dataverse/search/schema/SolrField.java:17-20 | each StdConf preset has keys STORED, INDEXED and MULTIVALUED with the declared values, and never NAME or TYPE |
| SolrField.ConvertToProperties | src/test/java/edu/harvard/iq/dataverse/search/schema/SolrBaseFieldTest.java:12-34 | the conversion fails exactly when some raw key is unknown; otherwise every raw entry becomes the property with that key, with the same value, and nothing else |
| SolrField.ToWire | src/main/java/edu/harvard/iq/dataverse/search/schema/SolrField.java:81 | the wire form of a property map has one entry per property, under the property's key, with the same value |
| SolrField.ConvertToWireRoundTrip | src/test/java/edu/harvard/iq/dataverse/search/schema/SolrBaseFieldTest.java:12-23 | converting the wire form of any property map gives back that map |
| SolrField.ConvertRejectsUnknownKey | src/test/java/edu/harvard/iq/dataverse/search/schema/SolrBaseFieldTest.java:25-34 | a raw map holding a key no entry has is refused |
| SolrFieldType.NewFieldType | src/main/java/edu/harvard/iq/dataverse/search/schema/SolrFieldType.java:70-73 | the two-argument constructor succeeds exactly for a valid name; the type then has NAME and CLASS only |
| SolrFieldType.NewFieldTypeWith | src/main/java/edu/harvard/iq/dataverse/search/schema/SolrFieldType.java:75-78 | the three-argument constructor succeeds exactly for a valid name; the field type then has NAME and CLASS, overlaid by the overrides |
| SolrFieldType.ConstructDeclaredShape | src/main/java/edu/harvard/iq/dataverse/search/schema/SolrFieldType.java:70-78 | with a valid name, either constructor gives NAME, CLASS and the overrides; NAME and CLASS survive when the overrides avoid them |
| SolrFieldType.OverridesAvoidNameAndClass | src/main/java/edu/harvard/iq/dataverse/search/schema/SolrFieldType.java:27-68 | no constant's overrides contain NAME or CLASS |
| SolrFieldType.ConstantsConstruct | src/main/java/edu/harvard/iq/dataverse/search/schema/SolrFieldType.java:27-71 | every type name satisfies the base pattern, so no constant's construction throws |
| SolrFieldType.AsField | src/main/java/edu/harvard/iq/dataverse/search/schema/SolrFieldType.java:27-68 | the field value of each constant is what its constructor call yields |
| SolrFieldType.ConstantShape | src/main/java/edu/harvard/iq/dataverse/search/schema/SolrFieldType.java:70-78 | every constant is a field type whose NAME is its type name and whose CLASS is its class; its keys are NAME, CLASS and the override keys, with the override values |
| SolrFieldType.TypeNamesDistinct | src/main/java/edu/harvard/iq/dataverse/search/schema/SolrFieldType.java:27-68 | no two constants share a type name |
| SolrFieldType.TypeNameInjective | src/main/java/edu/harvard/iq/dataverse/search/schema/SolrFieldType.java:27-68 | two constants have the same type name exactly when they are the same constant |
| SolrFieldType.Position | src/main/java/edu/harvard/iq/dataverse/search/schema/SolrFieldType.java:87-91 | every constant sits at some index of ALL |
| SolrFieldType.AllIsTheConstants | src/main/java/edu/harvard/iq/dataverse/search/schema/SolrFieldType.java:87-91 | ALL has 21 entries, holds every public constant, and has no repeats |
| SolrFieldType.FindFirstNamed | src/main/java/edu/harvard/iq/dataverse/search/schema/SolrStaticField.java:49-52 | the search finds a type exactly when some listed type has the given name, and the one found has that name |
| SolrFieldType.FindByNameCorrect | src/main/java/edu/harvard/iq/dataverse/search/schema/SolrStaticField.java:49-52 | looking up a catalog name in ALL finds exactly that constant; a null or unlisted name finds nothing |
| SolrFieldType.MultivaluedSplit | src/main/java/edu/harvard/iq/dataverse/search/schema/SolrFieldType.java:27-66 | MULTIVALUED is set exactly for strings, pints, plongs, pfloats, pdoubles, pdates, booleans and text_general, and it is then "true" |
| SolrFieldType.PlainTextTypes | src/main/java/edu/harvard/iq/dataverse/search/schema/SolrFieldType.java:65-68 | text_en, text_general_rev and alphaOnlySort carry only NAME and CLASS |
| SolrFields.New | src/main/java/edu/harvard/iq/dataverse/search/schema/SolrStaticField.java:29-35 | the three-argument constructor (SolrDynamicField.java:33-39 has the same shape) succeeds exactly for a valid name and an overlay without NAME and TYPE; an invalid name is reported first, then an override of NAME or TYPE |
| SolrFields.NewProperties | src/main/java/edu/harvard/iq/dataverse/search/schema/SolrStaticField.java:29-35 | on success the map is exactly NAME and TYPE (the type's name) plus the overlay; getName() is the name and getProperty(TYPE) the type name |
| SolrFields.NewStd | src/main/java/edu/harvard/iq/dataverse/search/schema/SolrStaticField.java:16-18 | the two-argument constructor (SolrDynamicField.java:20-22 alike) is the STORED_INDEXED preset: NAME, TYPE, stored and indexed true, multiValued false |
| SolrFields.BuildUnknownKey | src/main/java/edu/harvard/iq/dataverse/search/schema/SolrStaticField.java:44-45 | build fails on a raw key unknown to the property registry |
| SolrFields.BuildUnknownType | src/main/java/edu/harvard/iq/dataverse/search/schema/SolrStaticField.java:47-52 | with known keys, build fails with the unknown-type error when the raw type is missing or not in ALL |
| SolrFields.BuildNameCheck | src/main/java/edu/harvard/iq/dataverse/search/schema/SolrStaticField.java:44-54 | with known keys and a registered type, build succeeds exactly when the raw name is valid for the kind, else it fails with the invalid-name error |
| SolrFields.BuildKeepsEntries | src/main/java/edu/harvard/iq/dataverse/search/schema/SolrStaticField.java:44-54 | a successful build keeps the kind, and every raw entry, name and type included, becomes a property with the same value, and nothing else |
| SolrFields.BuildRoundTrip | src/main/java/edu/harvard/iq/dataverse/search/schema/SolrStaticField.java:29-54 | a constructed field, put in wire form, is rebuilt by build as the very same field |
| SolrFields.BuildNoPreset | src/main/java/edu/harvard/iq/dataverse/search/schema/SolrDynamicField.java:62-73 | a raw map of just a valid name and a registered type builds a field with only NAME and TYPE: no preset is applied |
| SolrFields.DynamicStringBuild | src/main/java/edu/harvard/iq/dataverse/search/schema/SolrDynamicField.java:62-73 | {name: "*_s", type: "string"} builds the dynamic field with just NAME "*_s" and TYPE "string" |
| SolrCopyField.NewCopyField | src/main/java/edu/harvard/iq/dataverse/search/schema/SolrCopyField.java:39-47 | a null endpoint fails first, then a field-type endpoint; otherwise the copy field holds both endpoints and maxChars 3000 |
| SolrCopyField.NewCopyFieldWithLimit | src/main/java/edu/harvard/iq/dataverse/search/schema/SolrCopyField.java:61-67 | the endpoint checks run first; then a null limit or one below 1 fails; otherwise the given limit is stored |
| SolrCopyField.CopyEqualsIsNamePair | src/main/java/edu/harvard/iq/dataverse/search/schema/SolrCopyField.java:75-80 | copy-field equality is equality of the (source name, dest name) pair and never depends on maxChars |
| SolrCopyField.CopyEqualsIsEquivalence | src/main/java/edu/harvard/iq/dataverse/search/schema/SolrCopyField.java:75-80 | copy-field equality is reflexive, symmetric and transitive |
| SolrCopyField.DefaultLimitAgrees | src/main/java/edu/harvard/iq/dataverse/search/schema/SolrCopyField.java:39-67 | the three-argument constructor with limit 3000 behaves as the two-argument one |
| SolrSchemaCache.FullText | src/main/java/edu/harvard/iq/dataverse/search/schema/SolrSchemaCache.java:36-40 | the fulltext field is a static field named "_text_" of type text_general, indexed true, stored false, multiValued true, and its construction does not throw |
| SolrSchemaCache.BuildStaticFieldFromMDB | src/main/java/edu/harvard/iq/dataverse/search/schema/SolrSchemaCache.java:61-74 | a text_en record with a valid name becomes a static field of that name with stored and indexed true, and multiValued true exactly when multiples are allowed; another type fails as not supported |
| SolrSchemaCache.BuildFullTextCopyField | src/main/java/edu/harvard/iq/dataverse/search/schema/SolrSchemaCache.java:76-78 | the copy field goes from the given static field to fulltext with maxChars 3000 |
| SolrSchemaCache.AppendAbsentExtends | src/main/java/edu/harvard/iq/dataverse/search/schema/SolrSchemaCache.java:58 | addAllAbsent keeps the old list in front, adds only given items, and afterwards every given item is held |
| SolrSchemaCache.AppendAbsentKeepsDistinct | src/main/java/edu/harvard/iq/dataverse/search/schema/SolrSchemaCache.java:58 | a list without equal elements stays so after addAllAbsent |
| SolrSchemaCache.AppendAbsentHeld | src/main/java/edu/harvard/iq/dataverse/search/schema/SolrSchemaCache.java:58 | items all held already leave the list unchanged |
| SolrSchemaCache.AppendAbsentIdempotent | src/main/java/edu/harvard/iq/dataverse/search/schema/SolrSchemaCache.java:58 | adding the same items a second time changes nothing |
| SolrSchemaCache.AppendAbsentSplit | src/main/java/edu/harvard/iq/dataverse/search/schema/SolrSchemaCache.java:58 | adding a then b is adding a + b: the items are taken one at a time, in order |
| SolrSchemaCache.LoadedCopyFields | src/main/java/edu/harvard/iq/dataverse/search/schema/SolrSchemaCache.java:43-59 | loading succeeds exactly when every metadata record converts |
| SolrSchemaCache.LoadKeepsDistinct | src/main/java/edu/harvard/iq/dataverse/search/schema/SolrSchemaCache.java:54-58 | loading keeps a duplicate-free copy-field list duplicate-free, keeps its elements in front, and then holds the full-text copy field of every record |
| SolrSchemaCache.LoadTwice | src/main/java/edu/harvard/iq/dataverse/search/schema/SolrSchemaCache.java:58 | loading the same catalog a second time leaves the copy fields as the first load left them |
| SolrSchemaCache.LoadFailsOnUnsupported | src/main/java/edu/harvard/iq/dataverse/search/schema/SolrSchemaCache.java:72-73 | a record of a type other than text_en makes the load fail |
| SolrSchemaCache.LoadAsWritten | src/main/java/edu/harvard/iq/dataverse/search/schema/SolrSchemaCache.java:43-59 | loading as written: a record that does not convert fails with its error; once every record converts, a null copy-field list fails with a null dereference, and a present list ends as `LoadedCopyFields` says |
| SolrSchemaCache.UninitialisedLoadNeverSucceeds | src/main/java/edu/harvard/iq/dataverse/search/schema/SolrSchemaCache.java:58 | with the copy-field list left null, loading never succeeds, and the empty catalog fails with a null dereference; from an empty list the empty catalog loads |
| SolrSchemaCache.SchemaCache.constructor | src/main/java/edu/harvard/iq/dataverse/search/schema/SolrSchemaCache.java:28-31 | the cache starts with empty static-field and dynamic-field maps and an empty copy-field list |
| SolrSchemaCache.SchemaCache.AddAllAbsent | src/main/java/edu/harvard/iq/dataverse/search/schema/SolrSchemaCache.java:54-58 | copyFields becomes the old list with each given item appended, in order, when no equal element is in it yet; the field maps never change |
| SolrSchemaCache.SchemaCache.LoadSchema | src/main/java/edu/harvard/iq/dataverse/search/schema/SolrSchemaCache.java:43-59 | a failing record aborts with its error and leaves copyFields as it was; otherwise copyFields becomes the old list with the absent full-text copy fields appended in order; the field maps never change |
| Wrappers.MapAll | src/main/java/edu/harvard/iq/dataverse/search/schema/IndexCheckerBean.java:96-98 | a stream map-and-collect yields one result per element, in order, or the error of the first element that fails |
| IndexChecker.KeptDynamic | src/main/java/edu/harvard/iq/dataverse/search/schema/IndexCheckerBean.java:99-100 | the kept raw dynamic fields are exactly those whose name is not in the ignore set |
| IndexChecker.KeptDynamicConcat | src/main/java/edu/harvard/iq/dataverse/search/schema/IndexCheckerBean.java:99-100 | the filter distributes over concatenation, so it keeps the raw order |
| IndexChecker.FindFirstByName | src/main/java/edu/harvard/iq/dataverse/search/schema/IndexCheckerBean.java:111-112 | a field is found exactly when some field has the raw name, and the one found is the first such field |
| IndexChecker.ValidateSchema | src/main/java/edu/harvard/iq/dataverse/search/schema/IndexCheckerBean.java:91-117 | validation succeeds exactly when the static fields, the kept dynamic fields and the copy fields all parse, and then returns those three lists; otherwise it fails with the error of the first stage that fails, in the order static fields, dynamic fields, copy fields |
| IndexChecker.StaticFieldsParsed | src/main/java/edu/harvard/iq/dataverse/search/schema/IndexCheckerBean.java:96-98 | one parsed static field per raw field, in order; a raw field that does not build makes validation fail |
| IndexChecker.DynamicFieldsParsed | src/main/java/edu/harvard/iq/dataverse/search/schema/IndexCheckerBean.java:99-102 | the parsed dynamic fields are the builds of the kept raw entries, in order |
| IndexChecker.StaticsAreStatic | src/main/java/edu/harvard/iq/dataverse/search/schema/IndexCheckerBean.java:96-98 | every parsed static field has the static kind |
| IndexChecker.CopyFieldsResolved | src/main/java/edu/harvard/iq/dataverse/search/schema/IndexCheckerBean.java:109-114 | one copy field per raw entry, in order; its endpoints are the first static fields named by the raw "source" and "dest", and its limit is 3000 |
| IndexChecker.UnresolvedCopyFieldFails | src/main/java/edu/harvard/iq/dataverse/search/schema/IndexCheckerBean.java:111-112 | an endpoint name that no static field has, a dynamic field's name included, makes copy-field parsing fail with NoSuchElement |
| IndexChecker.ResolvedEndpointsStatic | src/main/java/edu/harvard/iq/dataverse/search/schema/IndexCheckerBean.java:110-112 | with static endpoints, resolving a copy field can only fail for a missing endpoint |
| IndexChecker.ValidateUnresolved | src/main/java/edu/harvard/iq/dataverse/search/schema/IndexCheckerBean.java:109-114 | when both field lists parse, an unresolved copy-field endpoint makes validation fail with NoSuchElement |
| SearchField.FacetName | src/main/java/edu/harvard/iq/dataverse/search/SolrField.java:42-54 | the facet name is the name followed by "_ss" when multivalued and by "_s" otherwise |
| SearchField.FacetNameInjective | src/main/java/edu/harvard/iq/dataverse/search/SolrField.java:42-54 | the name is a strict prefix of its facet name, and for a fixed flag the facet name determines the name |
| SearchField.FacetNameSeparatesFlags | src/main/java/edu/harvard/iq/dataverse/search/SolrField.java:42-54 | the same name gives different facet names for single- and multivalued fields |
| SearchField.SolrField.constructor | src/main/java/edu/harvard/iq/dataverse/search/SolrField.java:37-55 | the fields hold the arguments, and the facet name is derived from the multivalued flag |
| SearchField.SolrField.SetAllowedToBeMultivalued | src/main/java/edu/harvard/iq/dataverse/search/SolrField.java:73-75 | only the multivalued flag changes; the facet name keeps its construction-time value and stays prefixed by the name |
| EmergingFeature.EnabledMeans | src/main/java/edu/harvard/iq/dataverse/settings/EmergingFeature.java:37-56 | a flag is enabled exactly when it is configured true and it is not both security relevant and on the release branch, that is, the build branch name equals the fused one |
| EmergingFeature.UnsetIsDisabled | src/main/java/edu/harvard/iq/dataverse/settings/EmergingFeature.java:41-42 | an unset flag is disabled |
| EmergingFeature.NotSecurityRelevantFollowsConfig | src/main/java/edu/harvard/iq/dataverse/settings/EmergingFeature.java:41-51 | a flag that is not security relevant is enabled exactly when configured true |
| EmergingFeature.ReleaseBranchBlocksSecurityRelevant | src/test/java/edu/harvard/iq/dataverse/settings/EmergingFeatureTest.java:13-27 | a security-relevant flag on the release branch is disabled even when configured true |
| EmergingFeature.UnsetFuseFollowsConfig | src/main/java/edu/harvard/iq/dataverse/settings/EmergingFeature.java:54-56 | with a null fused branch name the build is never on the release branch, so every flag follows its configuration |
| EmergingFeature.OffReleaseBranchFollowsConfig | src/test/java/edu/harvard/iq/dataverse/settings/EmergingFeatureTest.java:29-59 | off the release branch a flag follows its configuration |
| EmergingFeature.ScenarioOutcomes | src/test/java/edu/harvard/iq/dataverse/settings/EmergingFeatureTest.java:13-59 | the three configured scenarios give the outcomes the tests expect |

## Left out

- SolrSchemaCache.SchemaCache.constructor and `SolrSchemaCache.SchemaCache.LoadSchema`: the source never initialises `staticFields`, `dynamicFields` or `copyFields` (SolrSchemaCache.java:28-31), so `loadSchema` throws `NullPointerException` at `copyFields.addAllAbsent` (SolrSchemaCache.java:58) whenever every record converts. The model's constructor starts all three collections empty, and `LoadSchema` is the load from that state. `SolrSchemaCache.LoadAsWritten` models the null list (see Findings).
- Network I/O: `retrieveSolrSchema`, `onStart` and the SolrJ client. `IndexChecker.ValidateSchema` takes a schema value already fetched and returns the three parsed lists it would otherwise discard.
- Console output: the `System.out.println` calls in `IndexCheckerBean` and `EmergingFeature` do not affect any result.
- Concurrency: the `ConcurrentHashMap`, `CopyOnWriteArrayList` and EJB singleton annotations become a plain map and a sequence under sequential calls. `addAllAbsent` works atomically in the source. The loop in `SchemaCache.AddAllAbsent` gives the same final list.
- Reflection: `SolrFieldType.ALL` is collected by reflection over the declared fields. The model uses an explicit list in declaration order. Java does not promise an order for `getDeclaredFields`.
- Regex objects: the `Pattern` and `Matcher` objects, including the shared static matcher, become character-class predicates over ASCII word characters.
- Hashing: the `hashCode` methods, which hash the property map and so disagree with name equality, are not modelled.
- Code that is not part of this model: `SolrBaseField`, `DatasetFieldType`, `DatasetFieldServiceBean` and `JvmSettings`. The parts used appear as inputs: a metadata record is its name, its Solr type and its multiples flag; the ignored dynamic-field names are a parameter of `ValidateSchema`.
- SolrFieldProperty.Key: `getKey()`, `getType()` and `getDefault()` return the constructor arguments of each entry, so `Key`, `Type` and `Default` are just the three columns of the enum table and have no contract of their own. `KeysDistinct`, `Of` and `DefaultsAsDeclared` state what depends on them.
- `SolrField.ConvertToProperties`: the conversion is not part of this model's sources. It is modelled from its test as a one-to-one mapping of known keys that refuses unknown keys. Raw values are Java `Object`s and are modelled as strings.
- `IndexChecker.IsIgnored`: a raw dynamic field without a name is kept. Whether `IGNORED_DYNAMIC_FIELDS.contains(null)` throws depends on a set implementation that is not part of this model.
- `EmergingFeature.Enabled`: the configured flag is a boolean or absent. The MicroProfile parsing of strings such as "1" or "on" lives in `JvmSettings`, which is not part of this model. The two branch names are inputs rather than static lookups.
- Null arguments to the `SolrStaticField` and `SolrDynamicField` constructors: a null `SolrFieldType` throws `NullPointerException` at `type.getName()` (SolrStaticField.java:31, SolrDynamicField.java:35). The model's type argument is never null. A null build branch name in `EmergingFeature` throws the same way and is not modelled either; a null fused branch name is modelled.
- `SearchField.SolrField.constructor`: a null name is not modelled. In the source it is stored as is, and string concatenation gives the facet name "null_s" or "null_ss", so the strict-prefix invariant `Valid()` does not hold for it. The model takes a non-null name.
- `SearchField.SolrField.constructor`: a null `SolrFieldType` is stored without a check in the source. The model's type is never null.
- Aliasing: `getProperties()` returns the internal map, so a caller could change a field after construction. The model treats fields as values.
- `SearchFields.java`: only the `"_text_"` name of `FULL_TEXT` is used. Its constant table is written against a `SolrField` API that does not exist in this source.
- The copy-field rules on wildcards and multivalued destinations are comments only in the source, and are not enforced here either.
- `IndexMetrics`, `ExperimentalFeature` and the test scaffolding (containers, JUnit extensions) are outside the schema model.

## Findings

| source | as written | input that shows it | evidently intended | confidence | as-written member | corrected member |
|---|---|---|---|---|---|---|
| src/main/java/edu/harvard/iq/dataverse/search/schema/SolrSchemaCache.java:58 | `copyFields` is declared (line 31) but never initialised, so `copyFields.addAllAbsent(...)` dereferences null | any catalog whose records all convert, for example the empty catalog | the list starts empty, so loading appends the full-text copy fields | medium, not executed | SolrSchemaCache.LoadAsWritten, SolrSchemaCache.UninitialisedLoadNeverSucceeds | SolrSchemaCache.SchemaCache.LoadSchema |
