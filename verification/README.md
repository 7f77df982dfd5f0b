# md-models in Dafny

md-models turns a data model written in Markdown into a structured model and exports that
model to other schema languages. Its core is:

- The data model itself. An `Attribute` has a name, dtypes, an array flag, an identifier
  flag, options, a term, a default and an XML type. An `Object` holds attributes, a
  docstring, a term, mixins and a parent. An `Enumeration` maps keys to values. A
  `DataModel` holds objects, enumerations and front-matter configuration, and it merges
  with another model.
- The Markdown parser. A stream of Markdown events (`### Name` headings, attribute list
  items, option sub-lists, enum code blocks) becomes objects and enumerations. Internal
  types and parent types (inheritance) are then merged in.
- Validation of a parsed model: names, dtypes, duplicates and positions, with sorted error
  reports.
- Primitive types and the dependency order of objects (a topological order over the
  object graph).
- Import and export of JSON Schema. Export writes the 2020-12 dialect with `$defs`; the
  internal "sdRDM" schema uses draft-07 `definitions`.
- The JSON-LD context header and the context export.
- LinkML import and export.
- Exporter helpers: template names, type maps, term filters and text clean-up.
- Pipeline helpers: merge state, wildcard output names and root-prefixed paths.

Each core source file has one Dafny module:

| module | source |
|---|---|
| `Attributes` | src/attribute.rs |
| `Options` | src/option.rs |
| `XmlTypes` | src/xmltype.rs |
| `Objects` | src/object.rs |
| `Models`, `DataModels` | src/datamodel.rs |
| `Primitives` | src/primitives.rs |
| `Trees` | src/tree.rs |
| `Validation` | src/validation.rs |
| `MarkdownEvents`, `MarkdownText`, `MarkdownParser`, `MarkdownBuild` | src/markdown/parser.rs |
| `JsonDataTypes` | src/json/datatype.rs |
| `JsonParser` | src/json/parser.rs |
| `JsonSchema` | src/json/schema.rs |
| `JsonImport` | src/json/import.rs |
| `JsonExport` | src/json/export.rs |
| `DraftSchema` | src/schema.rs |
| `LinkmlSchema` | src/linkml/schema.rs |
| `LinkmlImport` | src/linkml/import.rs |
| `LinkmlExport` | src/linkml/export.rs |
| `JsonLdSchema` | src/jsonld/schema.rs |
| `JsonLdExport` | src/jsonld/export.rs |
| `Exporters` | src/exporters.rs |
| `Pipeline` | src/pipeline.rs |

Several helper modules support them:

- `Wrappers` holds `Option` and `Result`. A Rust panic is an `Err` whose `panicked` flag
  is set, so "panics on X" is stated as a property of the result.
- `Text` holds the string helpers.
- `Numbers` reads and prints integer literals. An `f64` is kept as its decimal literal
  text.
- `Seqs`, `StableSort` and `StringOrder` hold sequence helpers, a stable merge sort and
  the lexicographic order on strings.
- `OrderedMaps` models a `BTreeMap` as a sorted list of pairs.
- `IndexMaps` models an `IndexMap` as a list of pairs in insertion order.
- `JsonValues` models `serde_json::Value`.
- `Positions` models a source position.

Records that Rust owns through a single `Vec` or map entry, such as `Attribute`,
`Object`, `Enumeration` and the schema structs, are values. A `&mut self` method on such a
record becomes a function from the old record to the new one. The `Attribute` setters are
also given as methods of the `Attributes.Attribute` class. Long-lived holders that the
source updates in place are classes:

- `DataModels.DataModel`;
- `Objects.Object` and `Objects.Enumeration`;
- `Validation.Validator`;
- `MarkdownParser.EventParser`;
- `JsonLdSchema.JsonLdHeader`;
- `JsonExport.DefinitionCollector`;
- `JsonLdExport.ContextBuilder`;
- `Pipeline.GenTemplate`.

A loop of the modelled operations becomes a method where the table below lists one (the
rows that say "the loop gives …"). That method is proved equal to a specification
function, and the properties are proved as lemmas about that function. The recursion of
`build_object_context` is modelled on values over an acyclic graph, as the Left out section
says.

## Model

| member | source | states |
|---|---|---|
| `Attributes.DataType.AsBoolean` | src/attribute.rs:231-237 | yields a value exactly for a boolean default, and that value is its flag |
| `Attributes.DataType.AsInteger` | src/attribute.rs:239-245 | yields a value exactly for an integer default, and that value is its number |
| `Attributes.DataType.AsFloat` | src/attribute.rs:247-253 | yields a value exactly for a float default, and that value is its literal |
| `Attributes.DataType.AsString` | src/attribute.rs:255-261 | yields a value exactly for a string default, and that value is its text |
| `Attributes.EqualMeansSameValue` | src/attribute.rs:264-274 | two defaults are equal exactly when they are the same variant with the same payload |
| `Attributes.DataTypeFromStr` | src/attribute.rs:276-295 | fails exactly on the empty text; a boolean or integer result is the parse of the lower-cased text; a string result is the original text in double quotes |
| `Attributes.DataTypeFromShown` | src/attribute.rs:276-310 | a boolean or an in-range integer is read back from the text it is written as |
| `Attributes.DataTypeFromStrExamples` | src/attribute.rs:612-640 | "true", "42", "3.5", "hello" and "" parse to a boolean, integer, float, quoted string and an error |
| `Attributes.FloatExample` | src/attribute.rs:612-640 | "3.5" is neither a boolean nor an integer and parses to the float 3.5 |
| `Attributes.TextExample` | src/attribute.rs:612-640 | "hello" is no boolean or number and is kept as the quoted text "\"hello\"" |
| `Attributes.NewAttrOption` | src/attribute.rs:178-183 | the key is stored lower-cased and the value verbatim |
| `Attributes.NewAttribute` | src/attribute.rs:67-80 | the new attribute has the given name and required flag, no dtypes, options, term or default, and an XML type that is an attribute exactly when the name starts with '@' |
| `Attributes.ReplaceIdentifier` | src/attribute.rs:120-122 | a text holding no match of `[I\|i]dentifier` is returned unchanged |
| `Attributes.ReplaceIdentifierKeepsBrackets` | src/attribute.rs:120-126 | the replacement ends in "[]" exactly when its input does |
| `Attributes.ReplaceBeforeBrackets` | src/attribute.rs:120-126 | replacing in a text followed by "[]" leaves the "[]" in place after the replaced text |
| `Attributes.BracketsComeFromInput` | src/attribute.rs:120-126 | a trailing "[]" of the replacement was already in the input |
| `Attributes.ReplaceLength` | src/attribute.rs:120-122 | texts shorter than ten characters are unchanged and a text of two or more characters stays at least two long |
| `Attributes.SetDtypeEffect` | src/attribute.rs:115-131 | exactly one dtype without trailing "[]" is appended; the array flag is set by a trailing "[]"; the identifier flag by an "identifier" prefix in any case; nothing else changes |
| `Attributes.SetDtypeIdentifierArray` | src/attribute.rs:115-131 | "Identifier[]" gives an identifier array of "string" |
| `Attributes.SetDtypeUpperCaseIdentifier` | src/attribute.rs:115-131 | "IDENTIFIER" sets the identifier flag but the dtype is kept as written |
| `Attributes.AddOptionSpec` | src/attribute.rs:96-108 | fails exactly on a "default" key with an empty value; otherwise only the fields its key dispatches to change |
| `Attributes.AddOptionStores` | src/attribute.rs:96-108 | what each recognised key stores; any other key is appended as an option with its key and value |
| `Attributes.MultipleOverridesBrackets` | src/attribute.rs:101-106 | a "multiple" option given after a "[]" dtype decides the array flag |
| `Attributes.EmptyDefaultFails` | src/attribute.rs:102 | a default with an empty value is an error |
| `Attributes.Attribute.constructor` | src/attribute.rs:67-80 | the new attribute's state is `NewAttribute` |
| `Attributes.Attribute.SetDocstring` | src/attribute.rs:87-89 | only the docstring changes |
| `Attributes.Attribute.SetXml` | src/attribute.rs:156-158 | only the XML type changes |
| `Attributes.Attribute.HasTerm` | src/attribute.rs:147-149 | true exactly when a term is set |
| `Attributes.Attribute.SetDtype` | src/attribute.rs:115-131 | the new state is `SetDtypeSpec` of the old one |
| `Attributes.Attribute.AddOption` | src/attribute.rs:96-108 | succeeds exactly when `AddOptionSpec` does, then holds its value; an error leaves the attribute unchanged |
| `Options.ParseFor` | src/option.rs:132-146 | a parsed value has the variant the key names and a payload in range of its Rust type; parsing never panics |
| `Options.FromPairAsWrittenOther` | src/option.rs:130-155 | the key "Other" panics in the as-written function, while the corrected one returns `Other` for it as for "other" |
| `Options.FromPairAgrees` | src/option.rs:130-155 | on every key but "Other" the corrected function agrees with the code as written |
| `Options.FromPair` | src/option.rs:130-155 | an unrecognised key (and "Other") gives `Other` with key and value kept; an `Other` result carries exactly the inputs; it never panics |
| `Options.FromPairRecognised` | src/option.rs:131-146 | a recognised key gives its own variant with an in-range payload or an error; "pattern" and "regex" both give `Pattern` of the value |
| `Options.Key` | src/option.rs:174-179 | the stored key for `Other`; otherwise a name the derived parser maps back to the same variant |
| `Options.FromPairRejectsBadNumbers` | src/option.rs:333-341 | "-1" as minitems and "3.5" as multipleof are errors |
| `Options.FromPairRejectsBadFlags` | src/option.rs:333-341 | "not_a_bool" as unique and "invalid" as pk are errors |
| `Options.FromPairUnique` | src/option.rs:139 | a unique flag is read exactly when the value is "true" or "false" |
| `Options.FromPairPrimaryKey` | src/option.rs:143 | a pk flag is read exactly when the value is "true" or "false" |
| `Options.FromPairRejectsNonNumber` | src/option.rs:333-336 | "not_a_number" as minimum is an error |
| `Options.FromPairMinimum` | src/option.rs:133 | a minimum is read exactly when the value is a float literal |
| `Options.FromPairProducible` | src/option.rs:130-155 | every option `from_pair` returns is in range, and an `Other` only under a key no variant claims |
| `Options.FromPairToPair` | src/option.rs:130-206 | reading back the key and value of any option `from_pair` returns gives that option again |
| `Options.NewRawOption` | src/option.rs:233-238 | the key is lower-cased and the value kept |
| `Options.RawOptionIgnoresKeyCase` | src/option.rs:233-265 | any case of "minimum" reaches the minimum variant through a raw option |
| `Options.TryFromRaw` | src/option.rs:259-264 | converting a raw option panics for the key "Other", as `from_pair` does as written, and on every other key agrees with the corrected `from_pair` |
| `Options.LowerNotOther` | src/option.rs:233-238 | a lower-cased key is never "Other" |
| `Options.TryFromNewRaw` | src/option.rs:233-264 | a raw option built by `RawOption::new` converts as the corrected `from_pair` of its lower-cased key, so it never panics |
| `Options.TryFromRawOther` | src/option.rs:259-264 | a raw option whose key is "Other" panics |
| `Options.RawRoundTripExample` | src/option.rs:259-274 | an `Example` written as a raw option comes back as `Other` under the key "example" |
| `Options.RawRoundTripOther` | src/option.rs:259-274 | an `Other` comes back from its raw form exactly when its key is lower-case |
| `Options.RawRoundTripTyped` | src/option.rs:259-274 | every typed option other than `Example` comes back from its raw form |
| `Options.KeyIsLowerCase` | src/option.rs:58-101 | every variant name except "Example" is already lower-case |
| `Options.RawRoundTrip` | src/option.rs:259-274 | an option survives the raw-option round trip exactly when it is not an `Example` and, for `Other`, its key is lower-case |
| `XmlTypes.FromStr` | src/xmltype.rs:49-61 | never fails; the result is an attribute exactly when the text starts with '@', and its name is the text with that one '@' removed |
| `XmlTypes.Serialize` | src/xmltype.rs:97-124 | the written record holds the flag and the name |
| `XmlTypes.Deserialize` | src/xmltype.rs:64-94 | the flag picks the variant and is made to agree with it; the name is kept |
| `XmlTypes.DeserializeSerialize` | src/xmltype.rs:64-124 | writing and reading back gives the value again when its flag matches its variant |
| `XmlTypes.SerializeDeserialize` | src/xmltype.rs:64-124 | a record survives reading and writing back |
| `XmlTypes.InconsistentNotReproduced` | src/xmltype.rs:64-124 | a value whose flag contradicts its variant is not reproduced by the round trip |
| `Objects.PascalFrom` | src/object.rs:71 | the PascalCase text holds no separator and is no longer than its input |
| `Objects.Pascal` | src/object.rs:71 | the PascalCase form holds no '_', '-' or ' ' |
| `Objects.PascalKeepsLetters` | src/object.rs:71 | a name without separators keeps its length, and a lower-case letter starting a word becomes a capital |
| `Objects.ObjectName` | src/object.rs:71 | the stored object name holds neither a space nor an underscore |
| `Objects.NewObject` | src/object.rs:70-80 | the new object has the converted name and the given term, and no attributes, docstring, mixins or position |
| `Objects.LastAttribute` | src/object.rs:118-120 | none exactly for an object without attributes; otherwise its last attribute |
| `Objects.HasAnyTerms` | src/object.rs:156-158 | true exactly when some attribute has a term |
| `Objects.Group` | src/object.rs:165-173 | every attribute of a group is on the side the group names, and a group is no longer than its input |
| `Objects.RequiredFirstPermutation` | src/object.rs:161-176 | sorting by required is a permutation of the attributes |
| `Objects.RequiredFirstPartitioned` | src/object.rs:161-176 | no required attribute without default or array flag comes after any other attribute |
| `Objects.RequiredFirstStable` | src/object.rs:161-176 | each side keeps its original order, and sorting twice changes nothing |
| `Objects.PartitionByRequired` | src/object.rs:161-176 | the two-accumulator loop yields the stable partition |
| `Objects.SameHashIff` | src/object.rs:186-204 | two objects hash alike exactly when their attribute names agree as multisets |
| `Objects.SortKeepsHash` | src/object.rs:161-204 | sorting the attributes by required keeps the object's hash |
| `Objects.EnumSameHashIff` | src/object.rs:250-268 | two enumerations hash alike exactly when they have the same keys, whatever the values |
| `Objects.Object.constructor` | src/object.rs:70-80 | the new object's state is `NewObject` |
| `Objects.Object.AddAttribute` | src/object.rs:87-89 | the attribute is appended and nothing else changes |
| `Objects.Object.CreateNewAttribute` | src/object.rs:128-130 | a fresh attribute with the given name and required flag is appended and nothing else changes |
| `Objects.Object.SetDocstring` | src/object.rs:96-98 | only the docstring changes |
| `Objects.Object.SetPosition` | src/object.rs:105-107 | only the position changes |
| `Objects.Object.SetName` | src/object.rs:147-149 | only the name changes, stored as given |
| `Objects.Object.SortAttrsByRequired` | src/object.rs:161-176 | the attributes become their stable partition, nothing else changes |
| `Objects.Enumeration.constructor` | src/object.rs:210-220 | a new enumeration has the name, no mappings, no docstring and no position |
| `Objects.Enumeration.SetPosition` | src/object.rs:237-239 | only the position changes |
| `Models.DefaultFrontMatter` | src/markdown/frontmatter.rs:52-60 | the defaults: the id field on, no prefixes or namespace map, the default repository and prefix |
| `Models.ConfigOrDefault` | src/markdown/frontmatter.rs:92-100 | a given front matter is kept; a missing one takes the defaults |
| `Models.FindObject` | src/datamodel.rs:111-113 | finds an object exactly when one has that name, and the one found is in the model under that name |
| `DataModels.MergeSpec` | src/datamodel.rs:236-275 | panics with "Merge is not valid" exactly when a name of the other model's objects or enumerations is already in this model; otherwise the other's objects and enumerations follow this model's, and name and config stay |
| `DataModels.MergeKeepsInnerDuplicates` | src/datamodel.rs:241-265 | two objects of the same name inside the other model do not stop the merge |
| `DataModels.MergeEmpty` | src/datamodel.rs:236-275 | merging a model with no objects or enumerations changes nothing |
| `DataModels.MergeAssociative` | src/datamodel.rs:236-275 | merging `(a, b)` then `c` succeeds exactly when merging `a` with `(b, c)` does, and both give the same objects and enumerations |
| `DataModels.SortAll` | src/datamodel.rs:206-210 | every object, in order, with its attributes put required-first |
| `DataModels.SortAllKeeps` | src/datamodel.rs:206-210 | sorting keeps object names and hashes, and a second sort changes nothing |
| `DataModels.JsonSchemaRoot` | src/datamodel.rs:105-119 | no objects panics; no name picks the first object; a given name is accepted exactly when an object has it, else it panics naming it |
| `DataModels.SdrdmSchemaOf` | src/datamodel.rs:171-177 | panics exactly when the model has no objects; otherwise the model is serialised as it is |
| `DataModels.DataModel.constructor` | src/datamodel.rs:76-83 | a new model has the given name and config and no objects or enumerations |
| `DataModels.DataModel.Merge` | src/datamodel.rs:236-275 | succeeds exactly when `MergeSpec` does, then holds its value; a collision panics and leaves the model unchanged |
| `DataModels.DataModel.SortAttrs` | src/datamodel.rs:206-210 | the objects become `SortAll` of the old ones, nothing else changes |
| `Primitives.NewPrimitiveTypes` | src/primitives.rs:41-66 | the nine primitive names and the ten-entry JSON mapping, "bytes" included |
| `Primitives.Keep` | src/primitives.rs:80-109 | every kept dtype has the wanted kind, and no more are kept than given |
| `Primitives.FilterPrimitive` | src/primitives.rs:100-109 | the loop keeps exactly the primitive dtypes, in order |
| `Primitives.FilterNonPrimitives` | src/primitives.rs:80-89 | the loop keeps exactly the non-primitive dtypes, in order |
| `Primitives.FiltersPartition` | src/primitives.rs:80-122 | the two filters split the dtypes between them, repeats counted |
| `Primitives.FilterAppend` | src/primitives.rs:80-109 | filtering a concatenation is the concatenation of the filtered parts, so order is kept |
| `Primitives.KeepMembers` | src/primitives.rs:80-122 | a dtype is kept exactly when it occurs and has the wanted kind |
| `Primitives.DtypeToJson` | src/primitives.rs:137-143 | the JSON type of a mapped name; an unmapped name panics naming it |
| `Primitives.PrimitivesAreMapped` | src/primitives.rs:41-143 | every primitive has a JSON mapping, so the conversion never panics on one |
| `Primitives.BytesIsAReference` | src/primitives.rs:51-65 | "bytes" has a JSON mapping but is not a primitive |
| `Primitives.AliasMappings` | src/primitives.rs:43-51 | float and number map to "number", bool to "boolean", date and identifier to "string" |
| `Trees.NameSet` | src/tree.rs:140 | holds exactly the object names |
| `Trees.KeepNames` | src/tree.rs:146-153 | keeps exactly the dtypes that name an object |
| `Trees.Deps` | src/tree.rs:146-154 | holds exactly the object names found among the dtypes of the attributes |
| `Trees.AdjacencySpec` | src/tree.rs:138-160 | one entry per object name, each listing only object names |
| `Trees.ExtractAdjacencyMap` | src/tree.rs:138-160 | the loop builds `AdjacencySpec`, a later object of the same name overwriting an earlier one |
| `Trees.AdjacencyEntries` | src/tree.rs:138-160 | each entry lists exactly the object names among the dtypes of the last object of that name |
| `Trees.Outgoing` | src/tree.rs:115 | lists exactly the targets of the node's edges |
| `Trees.NodeOf` | src/tree.rs:52-57 | a name maps to the last node added under it |
| `Trees.EntryEdges` | src/tree.rs:60-64 | one edge from each dependency's node to the entry's node, in order |
| `Trees.AddNodes` | src/tree.rs:52-57 | one node per object, in model order |
| `Trees.AddEdges` | src/tree.rs:59-65 | the loop adds the edges of each adjacency entry in map order |
| `Trees.DependencyGraph` | src/tree.rs:47-66 | nodes are the object names in model order and edges those of the adjacency map |
| `Trees.EdgesMatchEntries` | src/tree.rs:47-66 | every edge runs from a listed dependency to the object listing it, and every listed dependency has its edge |
| `Trees.Visit` | src/tree.rs:103-121 | marks the node, only grows the visited set and the stack, keeps the stack free of repeats and, in an acyclic graph, post-ordered |
| `Trees.TopologicalOrder` | src/tree.rs:81-90 | every label once; in an acyclic graph each name comes after everything it depends on |
| `Trees.FirstIsUnreferenced` | src/tree.rs:81-121 | in a post-ordered stack, the first name is no edge's source |
| `Validation.StartsWithCharacter` | src/validation.rs:594-599 | fails exactly on an empty name or one whose first character is not a letter |
| `Validation.ContainsWhiteSpace` | src/validation.rs:612-620 | fails exactly when the name holds a space |
| `Validation.ContainsSpecialCharacters` | src/validation.rs:634-638 | fails exactly when some character is neither alphanumeric nor '_' nor ' ' |
| `Validation.SpaceIsOnlyWhiteSpace` | src/validation.rs:612-638 | a space alone fires the white-space rule and not the special-character rule |
| `Validation.NameMessagesSpec` | src/validation.rs:352-376 | the name rules report, in order, exactly the ones a name breaks, and none fires exactly on a valid name |
| `Validation.NameErrorsEmpty` | src/validation.rs:352-376 | a name draws no error exactly when it is valid |
| `Validation.GetDuplicates` | src/validation.rs:570-588 | the loop finds exactly the names that occur more than once |
| `Validation.PositionsSpecCollects` | src/validation.rs:649-714 | the position map lists under each name every recorded position of it, in order, and has no entry for a name without one |
| `Validation.ExtractPositions` | src/validation.rs:649-714 | the shared loop of the three position extractors builds `PositionsSpec` |
| `Validation.DuplicateDiagnostic` | src/validation.rs:210-280 | a duplicate diagnostic names the duplicate and is a `DuplicateError` |
| `Validation.DuplicateErrorsAdd` | src/validation.rs:210-280 | one more duplicate name adds exactly its diagnostic |
| `Validation.DuplicateErrorsEmpty` | src/validation.rs:210-280 | no duplicate diagnostics exactly when there are no duplicate names |
| `Validation.DtypeErrors` | src/validation.rs:430-480 | at most one error per dtype, and none exactly when it is non-empty and names an object, an enumeration or a basic type |
| `Validation.AttributeErrorsEmpty` | src/validation.rs:398-428 | an attribute draws no error exactly when its name is valid and it has dtypes, each non-empty and defined |
| `Validation.TypeNames` | src/validation.rs:514-524 | holds exactly the object and enumeration names |
| `Validation.AttributesErrorsEmpty` | src/validation.rs:282-296 | the attributes of an object draw no error exactly when each is well formed |
| `Validation.AttributeDuplicateErrorsEmpty` | src/validation.rs:298-328 | no attribute duplicate errors exactly when the attribute names are distinct |
| `Validation.ObjectErrorsEmpty` | src/validation.rs:282-296 | an object draws no error exactly when it is well formed |
| `Validation.ObjectsErrorsEmpty` | src/validation.rs:197-200 | the objects draw no error exactly when each is well formed |
| `Validation.ExpectedErrorsEmpty` | src/validation.rs:181-204 | the validator reports nothing exactly on a well-formed model |
| `Validation.LineKey` | src/validation.rs:526-532 | a diagnostic without positions sorts first |
| `Validation.SortByLine` | src/validation.rs:526-532 | a permutation, sorted by line, keeping the order of diagnostics on the same line |
| `Validation.UniqueElements` | src/validation.rs:551-568 | the loop collects exactly the elements of the input |
| `Validation.Validator.constructor` | src/validation.rs:136-142 | a new validator is valid with no errors and no positions |
| `Validation.Validator.Reset` | src/validation.rs:144-154 | clears errors and positions and sets the valid flag |
| `Validation.Validator.AddError` | src/validation.rs:156-159 | appends the error and clears the valid flag |
| `Validation.Validator.AddDuplicates` | src/validation.rs:210-280 | each duplicate name is reported once, in any order |
| `Validation.Validator.CheckDuplicateObjects` | src/validation.rs:210-240 | adds exactly the diagnostics of the duplicate object names |
| `Validation.Validator.CheckDuplicateEnums` | src/validation.rs:242-280 | adds exactly the diagnostics of the duplicate enumeration names |
| `Validation.Validator.CheckHasNoObjects` | src/validation.rs:378-396 | adds the global error exactly when the model has no objects |
| `Validation.Validator.CheckName` | src/validation.rs:352-376 | adds one name error per broken rule, in rule order |
| `Validation.Validator.ValidateObjectName` | src/validation.rs:352-376 | adds the name errors of the object name with its recorded positions |
| `Validation.Validator.CheckHasAttributes` | src/validation.rs:330-350 | adds an error exactly for an object without attributes |
| `Validation.Validator.CheckDuplicateAttributes` | src/validation.rs:298-328 | adds exactly the attribute duplicate diagnostics |
| `Validation.Validator.CheckAttrDtype` | src/validation.rs:430-480 | adds exactly the dtype's diagnostic, if any |
| `Validation.Validator.ValidateAttributeName` | src/validation.rs:482-512 | adds the name errors of the attribute name with its recorded positions |
| `Validation.Validator.CheckAttrDtypes` | src/validation.rs:417-419 | the loop adds the dtype errors of every dtype of the attribute, in order, and leaves the positions alone |
| `Validation.Validator.ValidateAttribute` | src/validation.rs:398-428 | adds exactly the attribute's diagnostics, in order |
| `Validation.Validator.ValidateObject` | src/validation.rs:282-296 | adds exactly the object's diagnostics |
| `Validation.Validator.SortErrors` | src/validation.rs:526-532 | the errors become their stable sort by line |
| `Validation.Validator.CheckModelWide` | src/validation.rs:190-193 | records the duplicate-object, duplicate-enumeration and no-object diagnostics |
| `Validation.Validator.ValidateObjects` | src/validation.rs:196-198 | adds exactly the diagnostics of all objects |
| `Validation.Validator.Validate` | src/validation.rs:181-201 | records every expected diagnostic, sorted by line, and is valid exactly when the model is well formed |
| `MarkdownText.StripTags` | src/markdown/parser.rs:123-141 | every character of the result comes from the input, and text without '<' is unchanged |
| `MarkdownText.StripTagsLeavesNoTag` | src/markdown/parser.rs:123-141 | after tag removal no '<' is followed by a '>' |
| `MarkdownText.LinkParts` | src/markdown/parser.rs:123-141 | the link text runs from after '[' to the first ']', and the link is non-empty and within the text |
| `MarkdownText.StripLinks` | src/markdown/parser.rs:123-141 | text without '[' is unchanged |
| `MarkdownText.StripLinksLink` | src/markdown/parser.rs:123-141 | a markdown link is replaced by its text and scanning carries on after it |
| `MarkdownText.CleanContent` | src/markdown/parser.rs:123-141 | text with neither '<' nor '[' is unchanged |
| `MarkdownText.GroupFrom` | src/markdown/parser.rs:300-314 | finds the leftmost non-empty parenthesised group at or after the position |
| `MarkdownText.ExtractObjectTerm` | src/markdown/parser.rs:300-314 | none exactly when the heading has no non-empty `(...)` group; otherwise the text of the leftmost one |
| `MarkdownText.HeadingName` | src/markdown/parser.rs:235-250 | the first whitespace-separated word of the heading; a heading of white space only panics |
| `MarkdownText.ProcessOption` | src/markdown/parser.rs:391-411 | panics exactly when the option has no ':' |
| `MarkdownText.ProcessOptionParts` | src/markdown/parser.rs:391-411 | the key is the trimmed text before the first ':' and the value the trimmed rest, later ':' kept |
| `MarkdownText.SplitCount` | src/markdown/parser.rs:442-471 | splitting gives one more piece than there are separators |
| `MarkdownText.MappingEntry` | src/markdown/parser.rs:442-471 | a line gives an entry exactly when it has one '=', and neither key nor value holds '"' |
| `MarkdownText.MappingEntryParts` | src/markdown/parser.rs:442-471 | key and value are the trimmed text on each side of the '=' with every '"' removed |
| `MarkdownText.MappingsGet` | src/markdown/parser.rs:442-471 | a repeated key keeps its last line's value, a key no line gives keeps its old value, and the map stays ordered |
| `MarkdownText.ProcessEnumMappings` | src/markdown/parser.rs:442-471 | the loop inserts the entry of every line in order |
| `MarkdownEvents.At` | src/markdown/parser.rs:90 | an event exactly while the stream is not used up |
| `MarkdownEvents.Advance` | src/markdown/parser.rs:90 | reading moves one event on, and stays at the end once there |
| `MarkdownEvents.NameAt` | src/markdown/parser.rs:252-274 | the first text among the next three events and the position after it; none of them a text panics |
| `MarkdownEvents.AttrNameAt` | src/markdown/parser.rs:276-298 | the name as `extract_name` reads it, required exactly when the name is not the very next event; a missing name panics |
| `MarkdownEvents.ObjectHeadingAt` | src/markdown/parser.rs:235-250 | a new object named by the heading's first word with its first `(...)` group as term |
| `MarkdownEvents.WithLast` | src/markdown/parser.rs:189-202 | only the last object is replaced |
| `MarkdownEvents.Distribute` | src/markdown/parser.rs:345-389 | a string without ':' adds a non-required attribute; one with ':' becomes an option of the last attribute, a rejected option panicking |
| `MarkdownEvents.DistributeAll` | src/markdown/parser.rs:196-199 | only the attributes of the last object change |
| `MarkdownEvents.OptionsFrom` | src/markdown/parser.rs:316-343 | the read position stays within the stream, and every failure is a panic |
| `MarkdownEvents.ParentEvent` | src/markdown/parser.rs:164-185 | succeeds exactly when the next event is a text other than "]", which becomes the parent of the last object; otherwise panics |
| `MarkdownEvents.ListEvent` | src/markdown/parser.rs:187-203 | without an object it panics; the first list of an object reads one attribute; a later list only changes the last object's attributes |
| `MarkdownEvents.ItemEvent` | src/markdown/parser.rs:204-212 | appends one attribute to the last object, required when emphasised; a missing name or object panics |
| `MarkdownEvents.ObjectEvent` | src/markdown/parser.rs:143-233 | keeps the pass invariant, moves forward, and adds at most one object while leaving the earlier ones alone |
| `MarkdownEvents.ObjectsPass` | src/markdown/parser.rs:89-92 | reads the whole stream keeping the pass invariant |
| `MarkdownEvents.StartPass` | src/markdown/parser.rs:83-89 | the starting pass meets the pass invariant for any stream |
| `MarkdownEvents.HeadingOpensObject` | src/markdown/parser.rs:156-160 | a level-3 heading appends a new object without attributes or parent and enters the heading |
| `MarkdownEvents.HeadingLeavesDefinition` | src/markdown/parser.rs:153-155 | a level-2 heading leaves the definition and changes nothing else |
| `MarkdownEvents.OutsideKeepsObjects` | src/markdown/parser.rs:143-233 | outside a definition only a level-3 heading touches the objects |
| `MarkdownEvents.TextOnlyInDefinition` | src/markdown/parser.rs:213-218 | text is appended to the last object's docstring only inside a definition, and a "[" text never is |
| `MarkdownEvents.ItemAddsAttribute` | src/markdown/parser.rs:204-212 | an item adds one attribute named by the text read, required exactly when that text is not the next event |
| `MarkdownEvents.EnumEvent` | src/markdown/parser.rs:413-440 | moves forward and adds at most one enumeration |
| `MarkdownEvents.EnumsPass` | src/markdown/parser.rs:98-100 | reads the whole stream |
| `MarkdownEvents.HeadingOpensEnum` | src/markdown/parser.rs:413-440 | a level-3 heading appends a candidate enumeration without mappings, named by the heading |
| `MarkdownEvents.CodeBlockNeedsEnum` | src/markdown/parser.rs:413-440 | a code block before any level-3 heading panics |
| `MarkdownParser.EventParser.constructor` | src/markdown/parser.rs:80-89 | a parser at the start of the stream with no objects or enumerations |
| `MarkdownParser.EventParser.Next` | src/markdown/parser.rs:90 | yields the event at the position and advances, nothing else changes |
| `MarkdownParser.EventParser.ExtractName` | src/markdown/parser.rs:252-274 | follows `NameAt` |
| `MarkdownParser.EventParser.ExtractAttrNameRequired` | src/markdown/parser.rs:276-298 | follows `AttrNameAt` |
| `MarkdownParser.EventParser.ExtractAttributeOptions` | src/markdown/parser.rs:316-343 | follows `OptionsFrom` |
| `MarkdownParser.EventParser.ProcessObjectHeading` | src/markdown/parser.rs:235-250 | follows `ObjectHeadingAt` |
| `MarkdownParser.EventParser.DistributeAttributeOptions` | src/markdown/parser.rs:367-389 | updates the objects as `Distribute` says |
| `MarkdownParser.EventParser.ProcessList` | src/markdown/parser.rs:187-203 | updates the pass as `ListEvent` says |
| `MarkdownParser.EventParser.DistributeOptions` | src/markdown/parser.rs:196-199 | updates the objects as `DistributeAll` says |
| `MarkdownParser.EventParser.ProcessItem` | src/markdown/parser.rs:204-212 | updates the pass as `ItemEvent` says |
| `MarkdownParser.EventParser.ProcessParent` | src/markdown/parser.rs:164-185 | updates the pass as `ParentEvent` says |
| `MarkdownParser.EventParser.ProcessObjectEvent` | src/markdown/parser.rs:143-233 | updates the pass as `ObjectEvent` says |
| `MarkdownParser.EventParser.ParseObjects` | src/markdown/parser.rs:89-92 | the first loop updates the pass as `ObjectsPass` says |
| `MarkdownParser.EventParser.ProcessEnumEvent` | src/markdown/parser.rs:413-440 | updates the enumerations as `EnumEvent` says |
| `MarkdownParser.EventParser.ParseEnums` | src/markdown/parser.rs:95-100 | the second loop, from the start again, updates the enumerations as `EnumsPass` says |
| `MarkdownBuild.LookupType` | src/markdown/parser.rs:525-553 | finds an internal type exactly when one has the name |
| `MarkdownBuild.MergeAll` | src/markdown/parser.rs:525-553 | the first name collision panics with the merge panic |
| `MarkdownBuild.MergeAllAppends` | src/markdown/parser.rs:525-553 | a successful merge appends the objects and enumerations of every model in order |
| `MarkdownBuild.AllTypesMembers` | src/markdown/parser.rs:525-553 | a type is collected exactly when some attribute lists it |
| `MarkdownBuild.InternalTypesUnused` | src/markdown/parser.rs:525-553 | a model that uses no internal type, or defines all it uses, is left as it is |
| `MarkdownBuild.SelectedMembers` | src/markdown/parser.rs:525-553 | an internal type the model uses and does not define is merged |
| `MarkdownBuild.CollectTypes` | src/markdown/parser.rs:525-553 | the nested loops collect every dtype of every attribute, in order |
| `MarkdownBuild.AddInternalTypes` | src/markdown/parser.rs:525-553 | the model becomes `InternalTypes` of the old one, or the merge panics |
| `MarkdownBuild.InheritFromResolves` | src/markdown/parser.rs:473-523 | inheritance succeeds exactly when every parent resolves, and an unresolved parent is an error, not a panic |
| `MarkdownBuild.InheritFromExtends` | src/markdown/parser.rs:473-523 | each object gains its parent's attributes in place, and every internal parent type is queued once |
| `MarkdownBuild.OneLevelInheritance` | src/markdown/parser.rs:473-523 | a parent that itself has a parent is not found, so the model is rejected unless an internal type has its name |
| `MarkdownBuild.ParentTypesExtends` | src/markdown/parser.rs:473-523 | when every parent resolves, the objects keep their order and each gains its parent's attributes |
| `MarkdownBuild.InheritParents` | src/markdown/parser.rs:480-515 | the loop extends each object in place as `InheritFrom` says |
| `MarkdownBuild.AddParentTypes` | src/markdown/parser.rs:473-523 | the model becomes `ParentTypes` of the old one, or the error it gives |
| `MarkdownBuild.Assemble` | src/markdown/parser.rs:102-110 | every failure between the passes and the validation is a panic |
| `MarkdownBuild.Build` | src/markdown/parser.rs:72-110 | every failure before validation is a panic |
| `MarkdownBuild.AssembleModel` | src/markdown/parser.rs:102-110 | filters, adds internal types and inheritance on a fresh model as `Assemble` says |
| `MarkdownBuild.BuildKeepsNonEmpty` | src/markdown/parser.rs:102-104 | every object the document contributes has attributes and every enumeration has values |
| `MarkdownBuild.ParseMarkdown` | src/markdown/parser.rs:72-121 | fails exactly when building panics; otherwise returns the model exactly when it is well formed, else the validator's errors, non-empty and sorted by line |
| `JsonDataTypes.FromStr` | src/json/datatype.rs:65-77 | accepts exactly the five basic type names, never giving an object, enumeration or reference, and errs naming any other text |
| `JsonDataTypes.Show` | src/json/datatype.rs:38-63 | fails exactly for an object type whose properties are not a JSON object |
| `JsonDataTypes.FromStrShow` | src/json/datatype.rs:38-77 | parsing the display of a basic type gives it back |
| `JsonDataTypes.EnumValues` | src/json/datatype.rs:91-98 | succeeds exactly when every value is a string, and keeps them in order; otherwise panics |
| `JsonDataTypes.FromObject` | src/json/datatype.rs:80-114 | "$ref" wins over "enum", which wins over "type"; a reference keeps the last path piece; values of the wrong JSON kind, unknown types and a missing type panic |
| `JsonDataTypes.FromObjectBasic` | src/json/datatype.rs:128-134 | `{"type": "string"}` gives the string type |
| `JsonDataTypes.FromObjectEnum` | src/json/datatype.rs:136-147 | an "enum" of "one" and "two" gives that enumeration |
| `JsonDataTypes.FromObjectReference` | src/json/datatype.rs:149-160 | "#/definitions/Person" gives a reference to "Person" |
| `JsonDataTypes.FromObjectUntyped` | src/json/datatype.rs:111-112 | an object without any type panics |
| `JsonSchema.FromStr` | src/json/schema.rs:220-240 | accepts exactly the seven type names, reading "float" as a number, and errs naming any other text |
| `JsonSchema.ShowAll` | src/json/schema.rs:242-263 | one name per member type |
| `JsonSchema.FromStrShow` | src/json/schema.rs:220-263 | the name of every single type reads back to it; `null` and a multiple type do not |
| `JsonSchema.FromName` | src/json/schema.rs:265-279 | never fails; a name `from_str` does not know is taken for an object |
| `JsonSchema.GetTypesNames` | src/json/schema.rs:136-151 | the types listed are exactly the reference and type names at the leaves |
| `JsonSchema.GetTypesAllNames` | src/json/schema.rs:136-151 | the types of a list of alternatives are those named by some alternative |
| `JsonSchema.GetTypesAppend` | src/json/schema.rs:136-151 | `oneOf` and `anyOf` contribute alike, and a group's types are its alternatives' one after the other |
| `JsonSchema.PrimitiveFromString` | src/json/schema.rs:290-315 | a float literal first, then a boolean in any case, then text; the integer branch is never taken |
| `JsonSchema.PrimitiveRoundTrip` | src/json/schema.rs:290-326 | numbers and booleans survive being shown and read back |
| `JsonSchema.FromAttributeValue` | src/json/schema.rs:328-339 | text loses its surrounding quotes; integers, floats and booleans are carried over |
| `JsonSchema.UnquoteText` | src/json/schema.rs:328-339 | a quoted text without quotes at its own ends comes out unquoted |
| `JsonSchema.SkipEmptyIff` | src/json/schema.rs:341-353 | only a present, non-empty list or text is written |
| `JsonImport.ExtractReference` | src/json/import.rs:250-257 | the piece after the last '/' when it is non-empty; otherwise "Invalid reference format" |
| `JsonImport.ExtractReferenceTail` | src/json/import.rs:250-257 | a resolved name is non-empty, holds no '/', and ends the reference right after a '/' or as the whole of it |
| `JsonImport.ExtractDefinitionReference` | src/json/import.rs:801-816 | "#/$defs/" followed by a name resolves to that name |
| `JsonImport.IsValidKey` | src/json/import.rs:265-278 | true exactly for a non-empty text starting with a letter or '_' and holding only letters, digits and '_' |
| `JsonImport.EscapedKeyIsValid` | src/json/import.rs:216 | an escaped "VALUE_i" key is itself a valid key |
| `JsonImport.EscapedKeyInjective` | src/json/import.rs:216 | different positions are escaped to different keys |
| `JsonImport.EnumFromSchema` | src/json/import.rs:204-227 | keeps title and description; each value is keyed by itself when valid and by its escaped key otherwise, a later entry for the same key winning |
| `JsonImport.EnumKeysAreValid` | src/json/import.rs:204-227 | every key of a converted enumeration is a valid key |
| `JsonImport.ValidValueIsItsOwnKey` | src/json/import.rs:204-227 | a valid value not shaped like an escaped key is stored under itself |
| `JsonImport.EscapedValueIsFound` | src/json/import.rs:204-227 | a value that is not a valid key is found under its escaped key unless some value spells that key |
| `JsonImport.ParseOptions` | src/json/import.rs:233-244 | the loop parses each extra key into an option with `from_pair` as written, stopping at the first failure |
| `JsonImport.ResolveTypes` | src/json/import.rs:175-193 | fails exactly when a reference is malformed; otherwise the resolved names without "object" and "array", each once |
| `JsonImport.AttributeFromProperty` | src/json/import.rs:131-198 | the title (or a marker) as name, the array flag, the resolved types, description, the options read by `from_pair` as written, and term; nothing required, no default or position |
| `JsonImport.SingleSourceTypes` | src/json/import.rs:175-193 | a single source resolves to that one type unless it is a container type |
| `JsonImport.ReferenceProperty` | src/json/import.rs:131-198 | a property that only refers to a definition has that definition's name as its one type |
| `JsonImport.ScalarProperty` | src/json/import.rs:131-198 | a scalar property of a basic type has that type's name as its one type; an object property without a reference has none |
| `JsonImport.AttributeFromEntry` | src/json/import.rs:91-98 | the property's attribute renamed after its key |
| `JsonImport.MarkRequiredEffect` | src/json/import.rs:100-108 | with distinct names exactly the listed attributes become required; unknown names are ignored and nothing else changes |
| `JsonImport.MarkOneEffect` | src/json/import.rs:101-107 | the attribute of the given name becomes required and no other changes |
| `JsonImport.MarkFirst` | src/json/import.rs:101-107 | the search marks the first attribute called by the name |
| `JsonImport.MarkRequiredAttributes` | src/json/import.rs:100-108 | the loop marks every listed name in turn |
| `JsonImport.ObjectFromSchema` | src/json/import.rs:88-119 | one attribute per property in key order, named by its key and required exactly when listed; title and description kept |
| `JsonImport.ObjectAttributes` | src/json/import.rs:88-119 | attribute `i` is property `i` renamed after its key, required exactly when listed |
| `JsonImport.DefinitionObjectNames` | src/json/import.rs:57-70 | objects keep the keys of their definitions, in order |
| `JsonImport.DefinitionEnumNames` | src/json/import.rs:57-70 | enumerations keep the keys of their definitions, in order |
| `JsonImport.ModelFromSchemaShape` | src/json/import.rs:52-78 | the root object first, then the object definitions; enumerations from the enumeration definitions; the model named by the root title |
| `JsonImport.ConvertSchema` | src/json/import.rs:52-78 | the loop over the definitions gives `ModelFromSchema` |
| `JsonExport.RetrieveObject` | src/json/export.rs:88-94 | found exactly when some object has the name, and then it is that object; otherwise "Object … not found" |
| `JsonExport.RetrieveEnum` | src/json/export.rs:106-112 | found exactly when some enumeration has the name, and then it is that enumeration; otherwise "Enum … not found" |
| `JsonExport.AttributeDataType` | src/json/export.rs:459-469 | fails exactly for a non-array attribute without types; an array is an array; otherwise the first type decides, an unknown name being an object |
| `JsonExport.ProcessDtype` | src/json/export.rs:535-544 | a known type name becomes its data type item, any other name a reference to "#/$defs/" plus the name |
| `JsonExport.OneOfItems` | src/json/export.rs:512-523 | nothing for a single type, one item per type otherwise |
| `JsonExport.CollectOneOf` | src/json/export.rs:512-523 | the push loop builds `OneOfItems` |
| `JsonExport.ItemsOf` | src/json/export.rs:483-499 | items exactly for an array: one processed type, or a `oneOf` of several; an array without types panics |
| `JsonExport.OptionPrimitive` | src/json/export.rs:549-567 | a float literal becomes a number, else "true"/"false" a boolean, else text; the integer case is unreachable |
| `JsonExport.OptionsMap` | src/json/export.rs:373-379 | each option's key maps to the value of its last option of that key |
| `JsonExport.ProcessDefault` | src/json/export.rs:430-441 | a text type keeps only a text default; any other type keeps every default |
| `JsonExport.PropertyFromAttribute` | src/json/export.rs:368-417 | the error and panic cases, and which of items, `oneOf`, description, enum values, type and reference are present, each in terms of the attribute |
| `JsonExport.RequiredNames` | src/json/export.rs:307-312 | a name is listed exactly when some required attribute has it |
| `JsonExport.SchemaObjectFromObject` | src/json/export.rs:298-325 | succeeds exactly when every attribute converts; title, object type, description, required names; properties keyed by name, no definitions |
| `JsonExport.SchemaObjectProperties` | src/json/export.rs:299-305 | every attribute's name has a property, converted from an attribute of that name at or after it |
| `JsonExport.LastEntryAfter` | src/json/export.rs:299-305 | the entry that wins for a key comes no earlier than any entry for it |
| `JsonExport.EnumObjectFromEnum` | src/json/export.rs:340-353 | title, text type, description and the mapped values in order |
| `JsonExport.CollectAppend` | src/json/export.rs:166-184 | visiting two lists of types is visiting the first, then the second from where it left off |
| `JsonExport.CollectGrows` | src/json/export.rs:160-187 | recording only adds names, each once: objects of the model and enumerations that are not objects |
| `JsonExport.CollectCloses` | src/json/export.rs:160-187 | on success every visited type is accounted for and every recorded object's types are basic or recorded |
| `JsonExport.DefinitionCollector.constructor` | src/json/export.rs:61-62 | both sets start empty |
| `JsonExport.DefinitionCollector.CollectDefinitions` | src/json/export.rs:160-187 | the nested loops with recursion give the walk `Collect`, and recorded objects stay recorded |
| `JsonExport.DefinitionCollector.CollectDtypes` | src/json/export.rs:167-183 | the inner loop over one attribute's types continues the walk `Collect` over those types and the ones after them; an error is the walk's error, and recorded objects stay recorded |
| `JsonExport.AddObjectDefinitionsKeys` | src/json/export.rs:132-135 | inserting the object definitions adds exactly their names as keys |
| `JsonExport.AddEnumDefinitionsKeys` | src/json/export.rs:137-143 | inserting the enumeration definitions adds exactly their names as keys |
| `JsonExport.DefinitionKeys` | src/json/export.rs:125-146 | the definitions are keyed by exactly the recorded names |
| `JsonExport.CollectDefinitionsFromModel` | src/json/export.rs:125-146 | the two insertion loops give `DefinitionsFromModel` |
| `JsonExport.SplitOnceColon` | src/json/export.rs:197-198 | around the first ':' when there is one; two empty parts otherwise |
| `JsonExport.SplitOnceAt` | src/json/export.rs:197-198 | a prefix without ':' is split off at its ':' |
| `JsonExport.ResolveTerm` | src/json/export.rs:196-203 | no term stays no term |
| `JsonExport.ResolvePrefixedTerm` | src/json/export.rs:196-203 | a known prefix is replaced by its expansion; an unknown one leaves the term alone |
| `JsonExport.ResolveBareTerm` | src/json/export.rs:196-203 | a term without ':' is expanded only by an empty prefix key |
| `JsonExport.PostProcessingKeepsKeys` | src/json/export.rs:195-215 | both post-processing steps keep the property keys |
| `JsonExport.ResolvePrefixes` | src/json/export.rs:195-204 | the in-place loop resolves every property's term |
| `JsonExport.RemoveOptions` | src/json/export.rs:211-215 | the in-place loop empties every property's options |
| `JsonExport.PostProcessedObject` | src/json/export.rs:239-246 | title, definitions, required names and keys are kept; for OpenAI every option is removed; without prefixes or OpenAI nothing changes |
| `JsonExport.PostProcessObject` | src/json/export.rs:239-246 | the in-place steps give `PostProcessedObject` |
| `JsonExport.PostProcessedDefinitions` | src/json/export.rs:232-236 | each definition is post-processed under its key |
| `JsonExport.PostProcessedSchema` | src/json/export.rs:224-237 | the id becomes the repository; title, draft and keys are kept |
| `JsonExport.PostProcessSchema` | src/json/export.rs:224-237 | the in-place steps give `PostProcessedSchema` |
| `JsonExport.ExportSchema` | src/json/export.rs:53-76 | the run with the collector gives `ToJsonSchema` |
| `JsonExport.ToJsonSchemaClosed` | src/json/export.rs:53-76 | the schema is titled by the root and names the 2020-12 draft; every type the root or a defined object uses is basic or defined; every definition is of the model |
| `JsonExport.PortableSource` | src/json/export.rs:535-544 | a portable type name is recovered from its processed form |
| `JsonExport.ProcessedSources` | src/json/export.rs:512-523 | the leaves of processed type names are their sources, in order |
| `JsonExport.PortableSources` | src/json/export.rs:512-523 | a list of portable type names is recovered in order |
| `JsonExport.ExportedShape` | src/json/export.rs:368-417 | an attribute the schema can carry exports as the property written out field by field |
| `JsonExport.ArrayTypesRoundTrip` | src/json/export.rs:483-499 | an exported array's item types read back as its type names |
| `JsonExport.SingleTypeSources` | src/json/export.rs:381-389 | a single known type reads back as itself; a defined type as "object" and a reference |
| `JsonExport.ManyTypesSources` | src/json/export.rs:381-393 | several types read back as the `oneOf` leaves, after a reference for a defined first type |
| `JsonExport.ResolveUnfold` | src/json/import.rs:175-193 | resolving extracted names filters out containers and removes repeats |
| `JsonExport.KeptOnce` | src/json/import.rs:175-193 | distinct portable names survive that filtering unchanged |
| `JsonExport.ObjectAndReference` | src/json/export.rs:381-386 | "object" and a reference extract to "object" and the name |
| `JsonExport.ResolvesPlain` | src/json/export.rs:535-544 | distinct portable names written out resolve back to themselves |
| `JsonExport.ResolvesObject` | src/json/export.rs:381-386 | "object" next to a reference resolves to the referenced name alone |
| `JsonExport.ResolvesRepeated` | src/json/export.rs:381-393 | a reference to the first type in front of the `oneOf` leaves changes nothing |
| `JsonExport.SingleTypeRoundTrip` | src/json/export.rs:368-417 | an attribute with one type gets that type back |
| `JsonExport.ManyTypesRoundTrip` | src/json/export.rs:368-417 | an attribute with several types gets them back, in order |
| `JsonExport.AttributeRoundTrip` | src/json/export.rs:368-417 | exporting a carriable attribute and importing the property gives the attribute back |
| `JsonParser.RemoveSpecialCharacters` | src/json/parser.rs:113-115 | no longer than the input; holds exactly the input's alphanumeric characters |
| `JsonParser.RemoveSpecialCharactersKeeps` | src/json/parser.rs:113-115 | alphanumeric text is left unchanged |
| `JsonParser.RemoveSpecialCharactersIdempotent` | src/json/parser.rs:113-115 | removing twice removes nothing more |
| `JsonParser.UrlToEnumAlias` | src/json/parser.rs:117-132 | the host without "www." and the path joined by '_', with every trailing '_' and only those cut off |
| `JsonParser.TrimmedTail` | src/json/parser.rs:131 | what `trim_end_matches` cuts off is made of the pattern |
| `JsonParser.UrlAliasExample` | src/json/parser.rs:117-132 | "www.a.org" with path "/b/" becomes "a_org__b" |
| `JsonParser.AliasOfSource` | src/json/parser.rs:126-131 | a source ending in exactly one '_' loses exactly that one |
| `JsonParser.EnumAlias` | src/json/parser.rs:102-111 | the alias holds no lower-case letter |
| `JsonParser.CreateEnum` | src/json/parser.rs:88-100 | named by the key, no docstring; each alias maps to the last value with that alias |
| `JsonParser.ProcessArray` | src/json/parser.rs:178-198 | missing items panic; otherwise an array attribute whose one type is the items' reference, or else the items' displayed type |
| `JsonParser.ProcessPrimitive` | src/json/parser.rs:200-212 | succeeds exactly when "type" is a string, which becomes the one type; a missing type panics |
| `JsonParser.PropertyAttribute` | src/json/parser.rs:150-158 | nested objects and inline enumerations panic; arrays, references and primitives give an attribute named by the key with one type, no options, not required |
| `JsonParser.OptionStep` | src/json/parser.rs:161-170 | a key of the fixed ten is passed over; any other must hold a string; name and requiredness are kept |
| `JsonParser.OptionStepEffects` | src/json/parser.rs:161-170 | "description" sets the docstring; an unknown key becomes an option under its lower-cased name |
| `JsonParser.AddOptions` | src/json/parser.rs:161-170 | the name and requiredness survive every key |
| `JsonParser.AddOptionsPropKeys` | src/json/parser.rs:161-170 | keys that only describe the property leave the attribute as it is |
| `JsonParser.AddPropertyOptions` | src/json/parser.rs:161-170 | the inner loop gives `AddOptions` |
| `JsonParser.AttributeFromProperty` | src/json/parser.rs:149-172 | the attribute is named by the property's key and is not required |
| `JsonParser.Title` | src/json/parser.rs:136-140 | succeeds exactly for a string title; a missing title panics |
| `JsonParser.Properties` | src/json/parser.rs:141-145 | succeeds exactly when "properties" is an object, giving its entries |
| `JsonParser.CreateObject` | src/json/parser.rs:135-176 | named by the title, one attribute per property named by its key in order, none required; fails exactly when a property fails |
| `JsonParser.CreateObjectFromSchema` | src/json/parser.rs:135-176 | the push loop gives `CreateObject` |
| `JsonParser.AddDefinition` | src/json/parser.rs:63-76 | an object definition appends its object, an enumeration definition its enumeration named by the key, anything else nothing |
| `JsonParser.AddDefinitionsCounts` | src/json/parser.rs:63-77 | definitions only append, one object per object definition and one enumeration per enumeration definition |
| `JsonParser.AddDefinitionGrows` | src/json/parser.rs:64-76 | one definition adds at most one object or enumeration |
| `JsonParser.ParsedSchema` | src/json/parser.rs:42-80 | named by the title with the default front matter; a missing title panics |
| `JsonParser.ParsedSchemaShape` | src/json/parser.rs:57-77 | the root object first, then one object per object definition; one enumeration per enumeration definition |
| `JsonParser.ParseJsonSchema` | src/json/parser.rs:42-80 | the loop over the definitions gives `ParsedSchema` |
| `DraftSchema.SplitPartition` | src/schema.rs:197-203 | the primitive and non-primitive dtypes together are the input, repeats counted; a dtype is a reference exactly when it is not primitive |
| `DraftSchema.OptionJson` | src/schema.rs:277-296 | a value that reads as an `f64` is written as a number (`null` for infinities and NaN), any other as a string |
| `DraftSchema.OptionPairs` | src/schema.rs:278-286 | each option gives its key and its value, in order |
| `DraftSchema.OptionsKeepOthers` | src/schema.rs:277-288 | the options leave every key they do not name as it was |
| `DraftSchema.OptionsLastWins` | src/schema.rs:277-288 | the last option with a key decides that key's value |
| `DraftSchema.SetOptions` | src/schema.rs:277-288 | the loop writes every option under its key, in order |
| `DraftSchema.WithDescription` | src/schema.rs:232-234 | a non-empty docstring sets "description"; no other key changes |
| `DraftSchema.WithTerm` | src/schema.rs:236-238 | a term sets "term"; no other key changes |
| `DraftSchema.Described` | src/schema.rs:229-238 | the title, the description when the docstring is not empty, the term when there is one, and nothing else |
| `DraftSchema.PrimitiveBase` | src/schema.rs:250-270 | an array gets type "array" and the JSON type as its items' type; a scalar the JSON type itself; the other keys are the described ones |
| `DraftSchema.EnumRefProperty` | src/schema.rs:324-328 | a fresh property with only the title and the reference to "#/definitions/" plus the name |
| `DraftSchema.RefBase` | src/schema.rs:304-353 | the term when there is one; an array gets type "array" and the reference as its items; a scalar the reference; every other key of the existing property is kept |
| `DraftSchema.RefOf` | src/schema.rs:157-166 | the reference is recorded under its own name |
| `DraftSchema.LastPrimitiveWins` | src/schema.rs:152-154 | each primitive replaces the property, so the last one decides it, and no other property changes |
| `DraftSchema.ReferenceStep` | src/schema.rs:156-170 | fails exactly for a name that is neither an enumeration nor an object, with the panic naming it; an enumeration is checked first and replaces the property, an object completes it; the reference is recorded; no other property changes |
| `DraftSchema.ClassBase` | src/schema.rs:135-139 | the title, the type "object", empty properties, and nothing else |
| `DraftSchema.ClassHeaderFields` | src/schema.rs:135-147 | the header adds the description when the docstring is not empty and the term when there is one, and nothing else |
| `DraftSchema.ClassSchema` | src/schema.rs:117-174 | succeeds exactly when the attribute fold does; the properties and the references are the fold's |
| `DraftSchema.ClassSchemaHeader` | src/schema.rs:117-174 | apart from its properties the class schema is its header, so it holds no definitions |
| `DraftSchema.ReferencesMembers` | src/schema.rs:149-151 | a name is referenced exactly when it is a non-primitive dtype of some attribute |
| `DraftSchema.RefsFoldFails` | src/schema.rs:156-170 | an attribute's references panic exactly when one of them is unknown |
| `DraftSchema.RefsFoldCollects` | src/schema.rs:156-170 | the references are recorded once each, in the order they are first met |
| `DraftSchema.AttributeStepTouches` | src/schema.rs:149-171 | an attribute only touches the property named after it, and writes it when it has a dtype |
| `DraftSchema.RefsFoldTouches` | src/schema.rs:156-170 | the references only touch the attribute's own property |
| `DraftSchema.AttributeProperty` | src/schema.rs:149-171 | with only primitives the property is the last primitive's; with an enumeration last it is the title and that reference alone |
| `DraftSchema.RefsOfNamed` | src/schema.rs:157-166 | every recorded reference is the one its name calls for, and comes from the dtypes |
| `DraftSchema.RefsOfCovers` | src/schema.rs:157-166 | every name of the dtypes has its reference recorded |
| `DraftSchema.AttributesFoldFails` | src/schema.rs:149-171 | the attributes panic exactly when some attribute has an unknown reference |
| `DraftSchema.AttributesFoldCollects` | src/schema.rs:149-171 | the references of all attributes are recorded once each, in order of first appearance |
| `DraftSchema.AttributesFoldKeys` | src/schema.rs:149-171 | a property exists exactly when it existed before or some attribute of that name has a dtype |
| `DraftSchema.ClassSchemaContents` | src/schema.rs:117-174 | it panics exactly on an unknown reference; otherwise the attributes with a dtype, and only they, have a property |
| `DraftSchema.RefsFoldStops` | src/schema.rs:168 | once a reference panics, the later ones are not looked at |
| `DraftSchema.AttributesFoldStops` | src/schema.rs:149-171 | once an attribute panics, the later ones are not looked at |
| `DraftSchema.ProcessPrimitive` | src/schema.rs:224-242 | the property under the attribute's name is replaced by its primitive property |
| `DraftSchema.ProcessReference` | src/schema.rs:304-316 | the property under the attribute's name is completed with the reference |
| `DraftSchema.ProcessPrimitives` | src/schema.rs:152-154 | the loop gives `PrimitivesFold` |
| `DraftSchema.ProcessReferences` | src/schema.rs:156-170 | the loop gives `RefsFold` |
| `DraftSchema.ProcessAttribute` | src/schema.rs:150-170 | the primitives, then the references give `AttributeStep` |
| `DraftSchema.NewClassSchema` | src/schema.rs:135-147 | the schema before the attributes is the header |
| `DraftSchema.ProcessAttributes` | src/schema.rs:149-171 | the loop over the attributes gives `AttributesFold` |
| `DraftSchema.ProcessClass` | src/schema.rs:117-174 | the whole routine gives `ClassSchema` |
| `DraftSchema.EnumSchema` | src/schema.rs:176-188 | the title, the type "string" and the mapped values in key order, and nothing else |
| `DraftSchema.Definition` | src/schema.rs:87-98 | an object's class schema or an enumeration's schema; a missing one panics |
| `DraftSchema.WithDefinition` | src/schema.rs:91 | the definition is set under its name; no other key changes |
| `DraftSchema.DraftSchemaOf` | src/schema.rs:78-107 | a missing root panics; a result names the draft-07 "$schema" |
| `DraftSchema.AddDefinitionsFails` | src/schema.rs:86-99 | the definitions panic exactly when some reference's definition panics |
| `DraftSchema.AddDefinitionsContents` | src/schema.rs:86-99 | each reference's definition sits under its name, one per reference; nothing else changes |
| `DraftSchema.RootRefs` | src/schema.rs:84 | the distinct references name each referenced name once and are empty exactly when nothing is referenced |
| `DraftSchema.SchemaInFront` | src/schema.rs:101-104 | "$schema" in front hides no other key |
| `DraftSchema.DraftSchemaFails` | src/schema.rs:78-107 | it panics exactly when the root is missing, one of its attributes names an unknown type, or a definition panics |
| `DraftSchema.DraftSchemaContents` | src/schema.rs:78-107 | the draft-07 "$schema", the root's class schema, and under "definitions" exactly the types the root references |
| `DraftSchema.AddDefinitionsStops` | src/schema.rs:86-99 | once a definition panics, the later references are not looked at |
| `DraftSchema.DefinitionOf` | src/schema.rs:87-98 | the loop body gives `Definition` |
| `DraftSchema.WriteDefinitions` | src/schema.rs:86-99 | the loop gives `AddDefinitions` |
| `DraftSchema.ToJsonSchema` | src/schema.rs:78-107 | the routine gives `DraftSchemaOf` |
| `JsonLdSchema.NullTerm` | src/jsonld/schema.rs:252-254 | a null term holding the JSON null |
| `JsonLdSchema.EnsureV11` | src/jsonld/schema.rs:260-263 | the version becomes "1.1" and nothing else changes |
| `JsonLdSchema.WithTerm` | src/jsonld/schema.rs:31-38 | a missing context becomes an object; an IRI or array context is left as it is |
| `JsonLdSchema.WithTermContents` | src/jsonld/schema.rs:31-38 | the term is found under its name, every other term as before; a new name is appended, an existing one keeps its place; the rest of the context is unchanged |
| `JsonLdSchema.WithTermValid` | src/jsonld/schema.rs:36 | the terms stay a map with distinct keys |
| `JsonLdSchema.WithoutTerm` | src/jsonld/schema.rs:46-52 | only an object context changes, and only in its terms |
| `JsonLdSchema.WithoutTermContents` | src/jsonld/schema.rs:46-52 | the name is gone, every other term is as before and the rest keep their order (`shift_remove`) |
| `JsonLdSchema.ImportOnly` | src/jsonld/schema.rs:75-78 | an otherwise empty context holding only the import |
| `JsonLdSchema.LeavesInSnoc` | src/jsonld/schema.rs:91-96 | the leaves of an extended array are the old leaves followed by the new one's |
| `JsonLdSchema.WithImportLeaves` | src/jsonld/schema.rs:60-99 | the import either fills the one object context that has none, or is appended as a context of its own after the existing ones |
| `JsonLdSchema.ImportsSnoc` | src/jsonld/schema.rs:75-96 | an import-only context adds its URL and no terms or IRIs |
| `JsonLdSchema.WithImportContents` | src/jsonld/schema.rs:60-99 | the imports gain the URL at the end; the terms and IRIs are unchanged |
| `JsonLdSchema.JsonLdHeader.constructor` | src/jsonld/schema.rs:13-22 | no context, id or type |
| `JsonLdSchema.JsonLdHeader.AddTerm` | src/jsonld/schema.rs:31-38 | the context becomes `WithTerm` of the old one; id and type are kept |
| `JsonLdSchema.JsonLdHeader.UpdateTerm` | src/jsonld/schema.rs:41-43 | the same as adding the term |
| `JsonLdSchema.JsonLdHeader.RemoveTerm` | src/jsonld/schema.rs:46-52 | true exactly when an object context held the name; the context becomes `WithoutTerm` of the old one |
| `JsonLdSchema.JsonLdHeader.AddImport` | src/jsonld/schema.rs:60-99 | the context becomes `WithImport` of the old one; id and type are kept |
| `JsonLdExport.FindNode` | src/jsonld/export.rs:218-223 | absent exactly when no object of the graph has the name; otherwise an object with that name |
| `JsonLdExport.FindFrom` | src/jsonld/export.rs:218-223 | the search from a position finds a node of that name at or after it, or there is none |
| `JsonLdExport.AttrTermShape` | src/jsonld/export.rs:162-172 | a simple term exactly for a non-array attribute referring to no object, with the attribute's term or "model:Object/attr"; otherwise a detailed term with "@set" exactly for arrays, "@id" exactly when the first type is an object, and a nested context exactly when it has terms |
| `JsonLdExport.ObjectContextTerms` | src/jsonld/export.rs:144-176 | one term per attribute name, in order of first appearance; with distinct names each attribute has its own term; nothing else is set |
| `JsonLdExport.NestedTypeLast` | src/jsonld/export.rs:265-279 | the nested type is set exactly when some neighbour is one of the attribute's types, and then by the last such neighbour |
| `JsonLdExport.NestedPairsKeys` | src/jsonld/export.rs:265-279 | a nested term exists exactly when a matching neighbour's context has it |
| `JsonLdExport.NestedForAttrContents` | src/jsonld/export.rs:256-282 | only the type and the terms are set; the type comes from the last matching neighbour; the terms are those of the matching neighbours' contexts |
| `JsonLdExport.PrefixTerms` | src/jsonld/export.rs:97-103 | one simple term per prefix |
| `JsonLdExport.PrefixTermsLast` | src/jsonld/export.rs:97-103 | each prefix name maps to the last URI given for it |
| `JsonLdExport.JsonLdOfOutcome` | src/jsonld/export.rs:39-61 | fails exactly with no root and no objects, a failing graph, or a missing root, each with its message; otherwise the context and the root's term or "prefix:Name" as the type |
| `JsonLdExport.ContextOfTerms` | src/jsonld/export.rs:80-133 | a root term wins over a prefix, a prefix over the model id, which maps to the repository; nothing else is set |
| `JsonLdExport.BaseContext` | src/jsonld/export.rs:81-103 | the model id and the prefixes inserted in order |
| `JsonLdExport.CreateContext` | src/jsonld/export.rs:80-133 | the routine with its cache gives `ContextOf` |
| `JsonLdExport.ToJsonLd` | src/jsonld/export.rs:39-61 | fails exactly when `JsonLdOf` does; otherwise a fresh header with that context and type and no id |
| `JsonLdExport.MergeTerms` | src/jsonld/export.rs:128-130 | the loop inserts every entry in order |
| `JsonLdExport.ContextBuilder.constructor` | src/jsonld/export.rs:105 | the cache starts empty |
| `JsonLdExport.ContextBuilder.BuildObjectContext` | src/jsonld/export.rs:144-176 | the result is `ObjectContext`, cached or not; the object is cached afterwards, and only objects below it are added |
| `JsonLdExport.ContextBuilder.BuildDetailedTermDef` | src/jsonld/export.rs:179-213 | the result is `DetailedTerm`; the cache only grows |
| `JsonLdExport.ContextBuilder.BuildNestedForAttr` | src/jsonld/export.rs:256-282 | the result is `NestedForAttr`; the cache only grows |
| `JsonLdExport.ContextBuilder.VisitNeighbour` | src/jsonld/export.rs:265-279 | one neighbour more of the loop gives `NestedOver` of one neighbour more |
| `LinkmlSchema.RemoveNewlines` | src/linkml/schema.rs:258-269 | present exactly when the input is; the result holds no line break |
| `LinkmlSchema.OneLineHasNoNewline` | src/linkml/schema.rs:263-268 | trimmed lines joined by spaces hold no line break |
| `LinkmlSchema.RemoveNewlinesKeepsOneLine` | src/linkml/schema.rs:258-269 | a trimmed single line is read back unchanged |
| `LinkmlSchema.RemoveNewlinesTwoLines` | src/linkml/schema.rs:258-269 | two lines become the two trimmed lines joined by one space |
| `LinkmlSchema.DescriptionRoundTrip` | src/linkml/schema.rs:251-254 | a description is lost exactly when it is missing or empty; a trimmed single line survives writing and reading back |
| `LinkmlSchema.FlagRoundTrip` | src/linkml/schema.rs:275-277 | a flag is written exactly when it is true, and reads back with the same truth value |
| `LinkmlImport.AttributeFromDefinition` | src/linkml/import.rs:199-215 | no name yet; one type, the range or "string"; array, identifier and required exactly when set true; no options, default or XML; not an enumeration |
| `LinkmlImport.LocalAttributes` | src/linkml/import.rs:150-156 | one attribute per local definition, named by its key, in order |
| `LinkmlImport.FirstNamed` | src/linkml/import.rs:162 | the first attribute with the name, or none has it |
| `LinkmlImport.AddPatternAt` | src/linkml/import.rs:160-166 | with distinct names one usage adds its pattern to the attribute it names and nothing else |
| `LinkmlImport.WithPatternsContents` | src/linkml/import.rs:159-167 | every attribute gains the patterns of the usages naming it, in order, and keeps its place |
| `LinkmlImport.LocalNamesDistinct` | src/linkml/import.rs:150-156 | local attribute names are distinct |
| `LinkmlImport.ClassObjectContents` | src/linkml/import.rs:146-177 | one attribute per local definition with its patterns; named by `is_a` or empty; docstring, term from the class URI, no parent |
| `LinkmlImport.ConvertLocalAttributes` | src/linkml/import.rs:150-156 | the push loop gives `LocalAttributes` |
| `LinkmlImport.ApplySlotUsage` | src/linkml/import.rs:159-167 | the in-place loop gives `WithPatterns` |
| `LinkmlImport.ClassToObject` | src/linkml/import.rs:146-177 | the conversion gives `ClassObject` |
| `LinkmlImport.EnumFromDefinition` | src/linkml/import.rs:234-245 | no name yet, the description as docstring, mappings a valid map |
| `LinkmlImport.EntriesLastValue` | src/linkml/import.rs:235-239 | with distinct keys each key's last entry is its own value |
| `LinkmlImport.EnumFromDefinitionGet` | src/linkml/import.rs:234-245 | each permissible value maps to its meaning or the empty text; no other key is mapped |
| `LinkmlImport.GlobalSlotsContents` | src/linkml/import.rs:100-106 | the slots the class names that are defined, in the class's order, each converted from its definition |
| `LinkmlImport.ObjectsOf` | src/linkml/import.rs:95-108 | one object per class, in order |
| `LinkmlImport.EnumsOf` | src/linkml/import.rs:111-119 | one enumeration per definition, named by its key, in order |
| `LinkmlImport.LinkmlModelContents` | src/linkml/import.rs:85-127 | the name, a configuration with the id as prefix and the prefixes; objects named by the class keys, each with its local attributes and then its global slots; enumerations named by the enumeration keys |
| `LinkmlImport.AppendGlobalSlots` | src/linkml/import.rs:100-106 | the loop appends `GlobalSlots` |
| `LinkmlImport.ConvertClasses` | src/linkml/import.rs:94-108 | the loop gives `ObjectsOf` |
| `LinkmlImport.ModelFromLinkml` | src/linkml/import.rs:85-127 | the conversion gives `LinkmlModel` |
| `LinkmlExport.KeyIndex` | src/linkml/export.rs:307-308 | the position of the first option with the key, or the end when there is none |
| `LinkmlExport.BoundValue` | src/linkml/export.rs:331-332 | a bound is a 64-bit integer; parsing fails exactly for a present option whose value is not one |
| `LinkmlExport.AttributeToDefinition` | src/linkml/export.rs:306-337 | panics exactly without types or with a minimum or maximum that is not a 64-bit integer |
| `LinkmlExport.AttributeRoundTrip` | src/linkml/export.rs:306-337 | reading the definition back keeps the first type, docstring, term and the array, identifier and required flags |
| `LinkmlExport.DefinitionRoundTrip` | src/linkml/export.rs:306-337 | writing an imported definition back gives the same range (none for "string"), slot URI and flag values, the description present, and no bounds or examples |
| `LinkmlExport.AttributeToDefinitionPanics` | src/linkml/export.rs:322-332 | no types panics on the index; a minimum of "1.5" panics on the integer parse |
| `LinkmlExport.FractionalMinimum` | src/linkml/export.rs:331 | "1.5" as a minimum panics |
| `LinkmlExport.ClassFromObject` | src/linkml/export.rs:254-290 | panics exactly when an attribute does; no tree root and no slots |
| `LinkmlExport.PatternEntriesEmpty` | src/linkml/export.rs:284-288 | no slot usage exactly when no attribute has a pattern |
| `LinkmlExport.ClassFromObjectContents` | src/linkml/export.rs:254-290 | description, class URI, parent as `is_a`; attributes keyed by name in order; with distinct names each attribute's definition under its name |
| `LinkmlExport.PatternEntriesDistinct` | src/linkml/export.rs:263-274 | with distinct names the usages are keyed by distinct attribute names |
| `LinkmlExport.PatternsForAt` | src/linkml/export.rs:263-274 | an attribute's usage yields exactly its first pattern option |
| `LinkmlExport.ClassRoundTrip` | src/linkml/export.rs:254-290 | reading the class back gives the attributes in order, each with name, first type, docstring, term, flags and its pattern |
| `LinkmlExport.AttributeBack` | src/linkml/export.rs:254-290 | one attribute read back, as above |
| `LinkmlExport.CollectSlotUsage` | src/linkml/export.rs:263-274 | the insertion loop gives the pattern entries as a map |
| `LinkmlExport.ObjectToClass` | src/linkml/export.rs:254-290 | the conversion gives `ClassFromObject` |
| `LinkmlExport.PermissibleEntries` | src/linkml/export.rs:350-360 | one permissible value per mapping, in order |
| `LinkmlExport.EnumToDefinition` | src/linkml/export.rs:349-365 | the insertion loop gives `EnumDefinitionOf` |
| `LinkmlExport.PermissibleGet` | src/linkml/export.rs:350-360 | each key has the permissible value of its mapped value; no other key |
| `LinkmlExport.EnumRoundTrip` | src/linkml/export.rs:349-365 | reading the definition back gives the same mappings and docstring |
| `LinkmlExport.ExtractSlotsAsWrittenEmpty` | src/linkml/export.rs:183-207 | as written the filter keeps nothing, since every name appears once in the collected map |
| `LinkmlExport.ExtractSlotsContents` | src/linkml/export.rs:183-207 | the slots are exactly the name and definition pairs that occur more than once |
| `LinkmlExport.SharedAttributeIsSlot` | src/linkml/export.rs:183-207 | two objects sharing an attribute make it a slot, where the code as written finds none |
| `LinkmlExport.LastValueWithout` | src/linkml/export.rs:235-240 | filtering out keys drops exactly those keys |
| `LinkmlExport.RemoveGlobalSlotsPartition` | src/linkml/export.rs:223-242 | the slots are the class's attributes that are global slots, once each; the remaining attributes are the others; nothing else changes |
| `LinkmlExport.ClassEntries` | src/linkml/export.rs:115-120 | one class per object, keyed by its name, in order |
| `LinkmlExport.WithoutGlobalSlots` | src/linkml/export.rs:125-127 | every class has its global slots removed, under its key |
| `LinkmlExport.LinkmlOfOk` | src/linkml/export.rs:103-162 | the export panics exactly when some object's conversion does |
| `LinkmlExport.WithoutGlobalSlotsGet` | src/linkml/export.rs:125-127 | the keys are kept and each class is looked up with its slots removed |
| `LinkmlExport.MarkRootGet` | src/linkml/export.rs:134-138 | the keys are kept; only the first class of the order is marked as the tree root |
| `LinkmlExport.LinkmlWithSlotsContents` | src/linkml/export.rs:103-162 | for any slot extraction: id, name and title, default prefix and range, the types import, the prefixes, the extracted slots, one class per object name and one enumeration per enumeration name |
| `LinkmlExport.LinkmlOfContents` | src/linkml/export.rs:103-162 | as written: id, name and title, default prefix, no global slots at all, one class per object name and one enumeration per enumeration name |
| `LinkmlExport.LinkmlWithSlotsClassAt` | src/linkml/export.rs:114-138 | with distinct names each object's class is its conversion without the extracted slots, marked root when it comes first in the order |
| `LinkmlExport.RemoveNoSlots` | src/linkml/export.rs:223-242 | removing no global slots leaves a converted class unchanged |
| `LinkmlExport.LinkmlClassAt` | src/linkml/export.rs:103-162 | as written, with distinct names each object's class is exactly its conversion, marked root when it comes first in the order |
| `LinkmlExport.LinkmlIntendedClassAt` | src/linkml/export.rs:103-162 | with the corrected slot extraction each class is its conversion without the shared slots, marked root when first in the order |
| `LinkmlExport.LinkmlRoot` | src/linkml/export.rs:130-138 | a class is the tree root exactly when it is first in the order |
| `LinkmlExport.ConvertedNotRoot` | src/linkml/export.rs:282 | a freshly converted class is not a tree root |
| `LinkmlExport.RemoveAllGlobalSlots` | src/linkml/export.rs:125-127 | the loop gives `WithoutGlobalSlots` |
| `LinkmlExport.ClassOrder` | src/linkml/export.rs:130-131 | the order lists every object name once |
| `LinkmlExport.BuildClasses` | src/linkml/export.rs:114-138 | the classes keyed by object name, global slots removed from each, and the first class of the computed order marked as root |
| `LinkmlExport.LinkmlFromModel` | src/linkml/export.rs:103-162 | the conversion gives `LinkmlOf`, with the as-written slot extraction, for the class order it computes |
| `Exporters.FromStr` | src/exporters.rs:96-141 | succeeds exactly for the accepted template names; otherwise "Invalid template type: …" |
| `Exporters.DisplayRoundTrip` | src/exporters.rs:96-141 | every template's displayed name parses back to it, except the pydantic XML template, which is displayed under a name the parser refuses and parsed from "python-sdrdm" |
| `Exporters.FromStrNames` | src/exporters.rs:96-141 | a parsed name is the template's displayed name, or "python-sdrdm" for the pydantic XML template |
| `Exporters.FromStrInjective` | src/exporters.rs:96-141 | different names never parse to the same template |
| `Exporters.MapType` | src/exporters.rs:259-273 | a mapped type comes from the table; an unlisted type is kept |
| `Exporters.TypeMapsAsDeclared` | src/exporters.rs:38-74 | each table maps the type names the source lists to the targets it lists |
| `Exporters.TablesSettled` | src/exporters.rs:38-74 | no table maps a type to a name it maps again, so converting twice is converting once |
| `Exporters.ConvertDtypes` | src/exporters.rs:264-270 | each type of an attribute is mapped, in order |
| `Exporters.ConvertObjectKeeps` | src/exporters.rs:259-273 | an object keeps its name and its attributes, only their types change; with a settled table converting again changes nothing |
| `Exporters.ConvertObjectsKeeps` | src/exporters.rs:259-273 | the objects keep their names; with a settled table converting again changes nothing |
| `Exporters.MapTypeSettled` | src/exporters.rs:259-273 | with a settled table mapping a mapped type changes nothing |
| `Exporters.ConvertModelTypes` | src/exporters.rs:259-273 | the model's objects are replaced by their converted versions and nothing else changes |
| `Exporters.KeptObjects` | src/exporters.rs:296-302 | the kept objects are those with some term; none is kept exactly when no object has a term |
| `Exporters.FilterObjectsWithoutTerms` | src/exporters.rs:296-302 | objects without terms are removed in place; it panics exactly when none is left |
| `Exporters.SortAttributesByRequired` | src/exporters.rs:309-313 | every object's attributes are sorted in place, required first, stably |
| `Exporters.PreparedKeeps` | src/exporters.rs:163-175 | the model keeps its name and configuration; the Markdown, JSON schema, MkDocs and internal templates leave it as it is |
| `Exporters.PreparedShacl` | src/exporters.rs:163-175 | for SHACL and ShEx it panics exactly when no object has a term; otherwise the objects are exactly the type-converted objects that have a term, in order |
| `Exporters.PreparedPython` | src/exporters.rs:163-175 | for the Python templates every object is kept; its attributes are its type-converted attributes, permuted required first, and nothing else changes |
| `Exporters.PrepareForTemplate` | src/exporters.rs:163-175 | the in-place steps give `Prepared` and panic exactly when it does |
| `Exporters.CleanLines` | src/exporters.rs:315-335 | no line ends in whitespace; at most two empty lines are kept at the end |
| `Exporters.CleanLinesAtMostTwo` | src/exporters.rs:315-335 | the cleaned lines never hold more than two empty lines in a row |
| `Exporters.CleanLinesFilled` | src/exporters.rs:315-335 | the non-empty lines are the input's non-blank lines, right-trimmed, in order |
| `Exporters.CleanedText` | src/exporters.rs:315-335 | the text neither starts nor ends with whitespace |
| `Exporters.CleanAndTrim` | src/exporters.rs:315-335 | the loop gives `CleanedText` |
| `Exporters.RemoveMultipleSpacesShape` | src/exporters.rs:249-251 | the result is the input's words joined by single spaces, and splitting it again gives those words |
| `Exporters.SplitJoinedWords` | src/exporters.rs:249-251 | words joined by single spaces split back into the same words |
| `Pipeline.MergeStateOf` | src/pipeline.rs:95-103 | one output per specification exactly when the flag is set, a merged model otherwise |
| `Pipeline.PathJoin` | src/pipeline.rs:84 | an absolute path replaces the base; a relative one is appended to it |
| `Pipeline.FileName` | src/pipeline.rs:493-498 | a file name is a non-empty last component without '/' that ends the path |
| `Pipeline.GetFileName` | src/pipeline.rs:493-498 | panics exactly when the path has no file name; otherwise the part before the first '.' of it |
| `Pipeline.ReplaceWildcardFileName` | src/pipeline.rs:475-482 | panics exactly when the path has no file name |
| `Pipeline.ReplaceWildcardInPlace` | src/pipeline.rs:475-482 | the directory is kept and every '*' of the file name is replaced by the name |
| `Pipeline.ParentJoin` | src/pipeline.rs:477-481 | joining a relative name to the parent puts it right after the directory |
| `Pipeline.HasWildcardShape` | src/pipeline.rs:459-463 | true exactly for a path whose file name is '*' followed by '.' and an alphanumeric extension, after a directory |
| `Pipeline.WildcardExamples` | src/pipeline.rs:533-545 | "path/to/*.json" has a wildcard file name, "path/to/file.json" has none |
| `Pipeline.WildcardOutput` | src/pipeline.rs:475-482 | for a wildcard path the '*' is replaced by the stem and nothing else changes |
| `Pipeline.RootedPaths` | src/pipeline.rs:49-54 | one path per path |
| `Pipeline.RootedFileName` | src/pipeline.rs:84 | prepending the root keeps the file name and starts with the root |
| `Pipeline.GenTemplate.constructor` | src/pipeline.rs:37-41 | holds the given metadata and generation specs |
| `Pipeline.GenTemplate.PrependRoot` | src/pipeline.rs:44-56 | the root is prepended to every input path and every output path, and nothing else changes |
| `Pipeline.PrependRootExample` | src/pipeline.rs:557-588 | "model.md" under "tests/data" becomes "tests/data/model.md" |
| `Pipeline.MkDocsNav` | src/pipeline.rs:217-223 | only the "nav" entry changes, as the merge state says |
| `Pipeline.BuiltSingle` | src/pipeline.rs:252-272 | one model builds to itself |
| `Pipeline.BuiltContents` | src/pipeline.rs:252-272 | on success every document parsed, and the objects and enumerations are all of theirs, in order, under the first one's name and configuration |
| `Pipeline.BuiltFirstError` | src/pipeline.rs:252-272 | a first document that fails to parse makes the build fail with its error |
| `Pipeline.BuildModels` | src/pipeline.rs:252-272 | the loop gives `Built`, as a fresh model |
| `Pipeline.JsonSchemaTarget` | src/pipeline.rs:301-322 | per-specification output and a missing root fail; a root naming an object of the merged model is the result; an empty model and an unknown root panic with their messages |
| `Pipeline.InternalSchema` | src/pipeline.rs:336-352 | succeeds exactly for a merged model with objects, giving it unchanged |
| `Pipeline.TemplateOutputs` | src/pipeline.rs:407-448 | one output when merged; otherwise a wildcard path is required and there is one output per specification |
| `Pipeline.TemplateOutputsNamed` | src/pipeline.rs:407-448 | each per-specification output is the path with '*' replaced by that specification's stem |
| `Pipeline.JsonSchemaAllOutputs` | src/pipeline.rs:364-393 | one output when merged; otherwise output i is the output directory joined with the stem of specification i, and it panics exactly when some specification has no file name |

## Left out

- File and network I/O are not modelled: reading Markdown, JSON, YAML and LinkML files,
  `process_pipeline`, `save_to_file`, `path_exists`, `print_render_msg`, the `is_file`
  check in `GenSpecs::prepend_root`, and the HTTP fetch of the command-line tool. The
  texts and parsed values these produce are parameters of the model.
- Markdown tokenisation (pulldown-cmark) is not modelled. The parser's input is the event
  sequence.
- Front-matter YAML parsing is not modelled. The configuration is a record with the
  source's default values.
- Template rendering (minijinja) and `wrap_text` (textwrap) are not modelled. Only the
  helpers around them are.
- HashMap and HashSet iteration orders are not modelled. The model fixes first-occurrence
  order, or takes the order as a parameter, and states its properties independently of
  that order wherever the source's result does not depend on it.
- Floating point is not modelled. An `f64` is its decimal literal text, and printing
  returns the same text.
- Unicode is approximated by ASCII. `is_alphabetic`, `is_alphanumeric`, `is_whitespace`,
  lower-casing and the convert_case PascalCase and snake_case conversions only handle
  ASCII characters.
- Url parsing and the snake-case conversion of `url_to_enum_alias` are function parameters
  (`JsonParser.Foreign`).
- The regexes of `clean_content`, `extract_object_term`, `replace_identifier` and
  `has_wildcard_fname` are written out as string predicates and functions.
- The `DefaultHasher` of `same_hash` is not modelled. The hash is the sorted name
  sequence it is computed from.
- `generate_unique_title` and its atomic counter are not modelled.
- The LLM modules, the jsonschema validation wrapper, the Python and WebAssembly bindings,
  the binaries and the superseded copies `src/parser.rs`, `src/markdown/attribute.rs` and
  `src/markdown/object.rs` are not part of this model.
- Records owned by one vector (`Attribute`, `Object`, `Enumeration`, the schema structs)
  are values. A `&mut self` method on one of them is a function from the old record to
  the new one, so aliasing between references into those vectors is not captured.
- Where source files disagree on a record's shape, the model uses a record holding every
  field either side uses.
- `build_models` takes the already parsed models of its paths as input.
- The MkDocs branch of the pipeline says in its comment that navigation is disabled when
  merging is off. The code disables it in the Merge state, and the model follows the code.
- JSON-LD export takes the object graph as an input. `tree::object_graph` is not part of
  this model. The graph must be acyclic (`JsonLdExport.RankedBy`) and its object names
  distinct for the properties about whole contexts. `build_object_context` fills its
  cache only after it has recursed, so on a cyclic graph the recursion would not stop;
  this reading of the code is not executed, and cyclic graphs are not modelled. The
  configured prefixes enter in the order given.
- The LinkML `Contributor`, `Subset` and `TypeDefinition` records are not modelled, and
  nor is the YAML (de)serialisation. The topological class order is a parameter of
  `LinkmlExport.LinkmlFromModel`.
- LinkmlExport.BoundValue: a minimum or maximum option holding a float literal such as
  "10.0" is an error in the model. Rust prints the whole `f64` 10.0 as "10", which then
  parses as `i64`. Float printing is not modelled.
- LinkmlExport.AttributeToDefinition: inherits the float-printing gap of `BoundValue`.
- Pipeline.FileName: "." components and repeated or trailing separators are not
  normalised the way `Path::file_name` does.
- Pipeline.ReplaceWildcardInPlace: stated only for directories that do not end in a
  doubled separator, because `Path::join` normalisation is not modelled.
- Pipeline.WildcardOutput: stated only for directories that do not end in a doubled
  separator, for the same reason.
- Debug-formatted payloads of messages are not modelled. A panic from `expect`, `unwrap`
  or a `panic!` with `{:?}` is modelled by the fixed text the source writes, without the
  `: <Debug of the error>` or the event Rust appends: `MarkdownEvents.NamePanic`,
  `MarkdownEvents.AddOptionPanic`, `JsonParser.OptionPanic`,
  `MarkdownBuild.ParentExpectPanic` (whose error Rust also prints in quotes),
  `JsonDataTypes.ParsePanic` and `LinkmlExport.ParseIntPanic` (which stops at
  "ParseIntError", without the error kind). `Pipeline.Built` prefixes the parse error's own
  text rather than its `{:#?}` dump. Whether something fails, and whether it panics, is
  modelled exactly.
- The serde_json pretty printing of the draft-07 schema is not modelled. The model builds
  the JSON value.

## Findings

| source | as written | input that shows it | evidently intended | confidence | as-written member | corrected member |
|---|---|---|---|---|---|---|
| src/option.rs:130-155 | `from_pair` matches the parsed key, and the `Other` variant's arm is `unreachable!()`. `AttrOption::from_str` accepts the key "Other", so that arm is reachable. | key "Other" with any value | treat "Other" like every other unrecognised key: an `Other` option carrying the key and value | not executed | `Options.FromPairAsWrittenOther` | `Options.FromPair` |
| src/linkml/export.rs:183-207 | `extract_slots` first collects every attribute into a map keyed by name. Each (name, definition) pair then occurs once, so the `count > 1` filter keeps nothing and no global slot is ever produced. | two objects that both have an attribute with the same name and definition | an attribute defined identically in more than one class becomes a global slot | not executed | `LinkmlExport.SharedAttributeIsSlot` | `LinkmlExport.ExtractSlotsContents` |

The operations that call these two functions follow the code as written:
`Options.TryFromRaw` and `JsonImport.ParseOptions` call `from_pair` as written, and
`LinkmlExport.LinkmlOf` and `LinkmlExport.LinkmlFromModel` use the as-written slot
extraction, so their global slots are always empty (`LinkmlExport.LinkmlOfContents`).
The corrected functions are `Options.FromPair` and `LinkmlExport.ExtractSlots`; the
export built on the corrected extraction is `LinkmlExport.LinkmlOfIntended`
(`LinkmlExport.LinkmlIntendedClassAt`).
