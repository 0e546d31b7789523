# Schema builder, table storage parameters and fetcher-state names, in Dafny

This project models three parts of CockroachDB's SQL layer and proves
properties of the models.

- **The `rel` schema builder** (`pkg/sql/schemachanger/rel/schema.go`).
  `buildSchema` turns attribute declarations and entity mappings into a
  `Schema`. Each attribute gets an ordinal, and each entity type gets a
  `fieldInfo` per selector: the selector is resolved to an offset and a type,
  the field is classified into `fieldFlags`, and three accessors are
  generated. The fields are grouped by attribute. Finally the entity types are
  sorted into a canonical order, and the sort's `Swap` also rewrites each
  entity type's rank (`typID`).
  - `RelTypes` (`rel_types.dfy`) holds the pure part: types, flags, selector
    resolution, accessors, sort and grouping.
  - `RelOrder` (`rel_order.dfy`) holds facts about the ordering.
  - `Rel` (`rel_schema.dfy`) holds the `Schema` and `EntityTypeSchema`
    classes, updated in place by the builder's methods.
- **The table storage-parameter setter**
  (`pkg/sql/storageparam/tablestorageparam/table_storage_param.go`).
  `SET (key = value)` and `RESET (key)` on a table dispatch through the
  `tableParams` registry to a handler. The handler creates, clears or updates
  the descriptor's row-level TTL record, its auto-stats settings and its
  exclude-data-from-backup flag.
  - `TableStorageParam` (`table_storage_param.dfy`) states each handler as a
    function of a snapshot of the descriptor (`OnSet`, `OnReset`, `SetOutcome`,
    `ResetOutcome`, `PostCheck`).
  - The `TableDescriptor` and `Setter` classes perform the same updates in
    place. Each of their methods is proved to agree with the function for its
    handler.
- **The fetcher state names** (`pkg/sql/colfetcher/fetcherstate_string.go`).
  This is the `stringer`-generated `String` method. It slices a packed name
  table by an offset table, and falls back to `fetcherState(<n>)` outside the
  declared range. It is modelled in `FetcherState` (`fetcher_state.dfy`).

`Wrappers` (`wrappers.dfy`) holds the `Option` and `Result` types.

The attribute table `buildSchema` leaves is pinned by one specification
function, `Rel.Register`. It registers a sequence of (attribute, type)
declarations in order, as `maybeAddAttribute` does. A new attribute takes the
next ordinal while there is room. A known attribute stays put when its
recorded type accepts the new one (`checkType`). The first declaration
refused ends the registration with its error. `Rel.BuildDecls` lists every
declaration `buildSchema` makes, in order: the declared attribute types, the
members each entity mapping selects, then `Self` and `Type`. Each phase
method is proved to leave exactly the table `Register` gives for its
declarations.

`comparableValue` of a non-pointer scalar field returns a pointer to the
field inside the entity, so it identifies the instance rather than the value:
two instances with equal scalar values do not give equal comparable values
(`RelTypes.ComparableScalarIsAddress`).

## Model

| member | source | states |
|---|---|---|
| FetcherState.IndexTableWellFormed | pkg/sql/colfetcher/fetcherstate_string.go:22-24 | The offset table has ten entries. It starts at 0, strictly increases and ends at 159, the length of the packed name table, so every slice `String` takes is in bounds and non-empty. |
| FetcherState.Digits | pkg/sql/colfetcher/fetcherstate_string.go:28 | The decimal rendering used by strconv.FormatInt is a non-empty string of digits without a leading zero. |
| FetcherState.DigitsRoundTrip | pkg/sql/colfetcher/fetcherstate_string.go:28 | Reading back the decimal digits of n gives n. |
| FetcherState.FormatIntRoundTrip | pkg/sql/colfetcher/fetcherstate_string.go:28 | FormatInt(v) starts with '-' exactly when v is negative, and parsing it gives v back. |
| FetcherState.String | pkg/sql/colfetcher/fetcherstate_string.go:26-31 | A declared state renders as its own identifier. Any other value renders as "fetcherState(" + its decimal form + ")". |
| FetcherState.IdentifierSlices | pkg/sql/colfetcher/fetcherstate_string.go:22-30 | The slice of the packed table between index[i] and index[i+1] is the i-th state's identifier, for every declared state. |
| FetcherState.ConstantsRender | pkg/sql/colfetcher/fetcherstate_string.go:11-31 | Each of the nine constants renders as its name; -1 and 9 render in the numeric fallback form. |
| FetcherState.IdentifiersDistinct | pkg/sql/colfetcher/fetcherstate_string.go:22 | No two declared states share an identifier. |
| FetcherState.StringInjective | pkg/sql/colfetcher/fetcherstate_string.go:26-31 | Distinct values render as distinct strings: in range, out of range, and across the two. |
| RelTypes.CheckType | pkg/sql/schemachanger/rel/schema.go:171-183 | Against an interface type, the check passes exactly when the type implements it. Otherwise it passes exactly when the two types are identical. |
| RelTypes.CheckTypeReflexive | pkg/sql/schemachanger/rel/schema.go:171-183 | A type passes the check against itself (for an interface, when it implements itself). |
| RelTypes.MakeFieldFlags | pkg/sql/schemachanger/rel/schema.go:226-246 | A type is classified exactly when it is supported: one level of pointer to an int, uint, string or struct, or a bare int, uint or string. Then the pointer flag is set iff it is a pointer; the int, uint, string and struct flags iff the pointee (or the type) is of that kind; it is scalar iff not a struct; int-like iff int or uint. |
| RelTypes.MakeFieldFlagsRejects | pkg/sql/schemachanger/rel/schema.go:226-246 | These are rejected: a struct that is not behind a pointer, a pointer to a pointer, interfaces and every other kind. |
| RelTypes.DeclaredType | pkg/sql/schemachanger/rel/schema.go:258-261 | The attribute type of a pointer-to-scalar field is the pointee. For every other field it is the field's own type. |
| RelTypes.SplitJoin | pkg/sql/schemachanger/rel/schema.go:361 | Splitting a selector on '.' gives dot-free parts, and joining them back gives the selector. |
| RelTypes.FieldByName | pkg/sql/schemachanger/rel/schema.go:365 | A found field is a member of the struct with that name. Not found means the type is not a struct or has no member of that name. |
| RelTypes.WalkAppend | pkg/sql/schemachanger/rel/schema.go:364-371 | Resolving one more name adds that member's offset and moves to its type, or fails when the name is missing. |
| RelTypes.WalkFailsAt | pkg/sql/schemachanger/rel/schema.go:364-368 | Resolution fails exactly when some name is missing from the type reached by the names before it. |
| RelTypes.WalkNoneExtends | pkg/sql/schemachanger/rel/schema.go:364-368 | Once resolution fails, adding more names never repairs it. |
| RelTypes.GetOffsetAndTypeFromSelector | pkg/sql/schemachanger/rel/schema.go:358-373 | The loop returns the summed offset and final type of the walk over the selector's parts, or the not-a-field error. |
| RelTypes.Value | pkg/sql/schemachanger/rel/schema.go:284-301 | The accessor gives nil exactly for a nil pointer field. A non-nil struct pointer field gives that pointer, typed as the field's type. A non-nil scalar field gives the stored scalar with the field's type (the pointee for a scalar pointer). |
| RelTypes.SignedWordRoundTrip | pkg/sql/schemachanger/rel/schema.go:319-322 | The uintptr encoding of a signed 64-bit value decodes back to the value. |
| RelTypes.Inline | pkg/sql/schemachanger/rel/schema.go:302-331 | The inline encoding exists exactly for non-nil int-like fields and is otherwise (0, false). It is a word that decodes to the int value or equals the uint value. |
| RelTypes.ComparableValue | pkg/sql/schemachanger/rel/schema.go:333-350 | The comparable value is nil exactly for a nil pointer field. A non-nil struct pointer gives that pointer. A non-nil scalar pointer gives the same address, typed as a pointer to the comparable type. A non-pointer field gives the field's address in the entity, typed as a pointer to the comparable type. |
| RelTypes.ComparableStructIsIdentity | pkg/sql/schemachanger/rel/schema.go:334-335 | For struct fields, comparable values are equal exactly when the two fields hold the same reference. |
| RelTypes.ComparableScalarIsAddress | pkg/sql/schemachanger/rel/schema.go:336-348 | For non-pointer fields, comparable values are equal exactly when the two instances are the same instance. |
| RelTypes.SortByAttr | pkg/sql/schemachanger/rel/schema.go:200-202 | The field infos come out ordered by attribute ordinal and are a permutation of the input. |
| RelTypes.GroupByAttr | pkg/sql/schemachanger/rel/schema.go:203-215 | The run-splitting loop produces one group per attribute present, and each group is exactly the fields with that attribute. |
| RelTypes.GroupsCover | pkg/sql/schemachanger/rel/schema.go:203-215 | Every field is in its attribute's group, and every grouped field has that group's attribute and comes from the input. |
| RelOrder.StrictTotalOrderIsAsymmetric | pkg/sql/schemachanger/rel/schema.go:39-42 | A strict total order on types never holds both ways, which is what the sort's Less needs. |
| RelOrder.AdjacentSortedIsSorted | pkg/sql/schemachanger/rel/schema.go:138 | Under a strict total order, no neighbour out of order implies no pair out of order. |
| RelOrder.SortedIsUnique | pkg/sql/schemachanger/rel/schema.go:138 | Two sorted orderings of the same distinct types are the same sequence. |
| Rel.SortedFieldsResolve | pkg/sql/schemachanger/rel/schema.go:193-202 | After sorting, every field info still resolves in the entity type and refers to a registered attribute. |
| Rel.MappedTypesAreTypes | pkg/sql/schemachanger/rel/schema.go:130-132 | The set of mapped types is exactly the types named by the entity mappings. |
| Rel.TypeSetBound | pkg/sql/schemachanger/rel/schema.go:38 | There are at most as many distinct entity types (Len) as entity type entries. |
| Rel.TypeSetOfDistinct | pkg/sql/schemachanger/rel/schema.go:38 | With no type mapped twice, Len equals the number of entries. |
| Rel.IndexOf | pkg/sql/schemachanger/rel/schema.go:151 | The position found holds the attribute, and no earlier position does. |
| Rel.IndexOfPrefix | pkg/sql/schemachanger/rel/schema.go:151-160 | Appending to the table never moves an attribute's first position. |
| Rel.RegisterAppend | pkg/sql/schemachanger/rel/schema.go:125-137 | Registering ds1 + ds2 is registering ds1 and then ds2 from the table it leaves. A failure in ds1 is the failure of the whole. |
| Rel.RegisterThen | pkg/sql/schemachanger/rel/schema.go:125-137 | Two successive successful registrations are one registration of the concatenated declarations. |
| Rel.RegisterPrefixThen | pkg/sql/schemachanger/rel/schema.go:125-127 | Registering the first i declarations, then declaration i, is registering the first i + 1. |
| Rel.RegisterPrefixFails | pkg/sql/schemachanger/rel/schema.go:125-127 | When the first i declarations register and declaration i is refused, registering all of them fails with that error. |
| Rel.NewAttrsMembers | pkg/sql/schemachanger/rel/schema.go:151-160 | An attribute is new to a registration exactly when it is not yet known and some declaration names it. |
| Rel.NewAttrsAppend | pkg/sql/schemachanger/rel/schema.go:125-137 | The new attributes of ds1 + ds2 are those of ds1, then those of ds2 that neither the known table nor ds1 holds. |
| Rel.RegisterGrows | pkg/sql/schemachanger/rel/schema.go:157-159 | A successful registration only appends: the old attribute and type tables are prefixes of the new ones. |
| Rel.RegisterDeclares | pkg/sql/schemachanger/rel/schema.go:151-166 | After a successful registration, every declaration's attribute is registered with a recorded type that equals or accepts the declared one. Each new attribute records the type of its first declaration. |
| Rel.RegisterNames | pkg/sql/schemachanger/rel/schema.go:151-160 | After a successful registration, every declared attribute is in the table. |
| Rel.RegisterTable | pkg/sql/schemachanger/rel/schema.go:151-160 | A successful registration's attribute table is the old one followed by the new attributes in order of first declaration. |
| Rel.RegisterStops | pkg/sql/schemachanger/rel/schema.go:151-166 | A failed registration fails at one declaration. The declarations before it register, and registering up to and including it already gives the whole registration's error. |
| Rel.PairDeclsAppend | pkg/sql/schemachanger/rel/schema.go:193-199 | The declarations of concatenated (attribute, selector) pairs are the concatenation of their declarations. |
| Rel.PairDeclsThen | pkg/sql/schemachanger/rel/schema.go:194-199 | Registering the first j pairs' declarations, then pair j's, registers those of the first j + 1 pairs. |
| Rel.EntityDeclsThen | pkg/sql/schemachanger/rel/schema.go:130-132 | Registering the first i mappings' declarations, then mapping i's, registers those of the first i + 1 mappings. |
| Rel.MappingAdded | pkg/sql/schemachanger/rel/schema.go:130-132 | An entity type made from mapping i, with its declarations registered after those of the first i mappings, extends what the first i mappings made: each of the first i + 1 mappings has its entity type, its attributes are in the table, its type joins the keys, and the registration covers the first i + 1 mappings. |
| Rel.RegisterSystemEmpty | pkg/sql/schemachanger/rel/schema.go:134-137 | Self and Type always register into an empty table with room for two attributes. |
| Rel.RegisterSystem | pkg/sql/schemachanger/rel/schema.go:134-137 | Registering Self and Type is registering Self and then, if that succeeded, Type. |
| Rel.EntityTypeSchema.constructor | pkg/sql/schemachanger/rel/schema.go:216-221 | A new entity type schema holds the given type, fields, per-attribute groups and rank. |
| Rel.Schema.constructor | pkg/sql/schemachanger/rel/schema.go:115-121 | A new schema has empty attribute and entity tables and satisfies the schema invariant. |
| Rel.Schema.GetOrdinal | pkg/sql/schemachanger/rel/schema.go:383-389 | Succeeds exactly for a registered attribute, returning its position in attrs. Otherwise it returns "unknown attribute <attribute> in schema <name>". |
| Rel.Schema.MustGetOrdinal | pkg/sql/schemachanger/rel/schema.go:375-381 | For a registered attribute, returns its position in attrs. |
| Rel.Schema.MaybeAddAttribute | pkg/sql/schemachanger/rel/schema.go:148-167 | A new attribute is appended with the next ordinal unless the limit is reached, which gives TooManyAttributes. A known attribute keeps its ordinal when the type checks, and otherwise gives TypeMismatch with the recorded type. It succeeds exactly when Admits holds. Its outcome is Register's on the one declaration: the same new tables, or the same error. Failures change nothing, and the schema invariant is kept. |
| Rel.Schema.AddTypeAttrMapping | pkg/sql/schemachanger/rel/schema.go:248-352 | Succeeds exactly when the selector resolves, its type is supported and the attribute accepts the declared type. The result is the field info for that selector, and the new tables are what Register gives for the selector's declaration (PairDecls). Otherwise the error is the first failing check's (MappingError): NotAField, UnsupportedType, or TooManyAttributes / TypeMismatch from registering the attribute. On failure the tables are unchanged. |
| Rel.Schema.CollectSelectorFields | pkg/sql/schemachanger/rel/schema.go:194-199 | On success, one field info per selector of an attribute mapping, in order, and the new tables are what Register gives for the selectors' declarations. On failure, the selectors before the refused one made the returned fields, and the error is the refused selector's MappingError (RejectedAt). |
| Rel.Schema.CollectFields | pkg/sql/schemachanger/rel/schema.go:193-199 | On success, one field info per (attribute, selector) pair in visiting order, and the new tables are what Register gives for the pairs' declarations. On failure, the pairs before the refused one made the returned fields, and the error is the refused pair's MappingError. |
| Rel.Schema.MaybeAddTypeMapping | pkg/sql/schemachanger/rel/schema.go:185-224 | A type that is not a struct pointer is refused with NotStructPointer. Otherwise one fresh entity type schema is appended, with the next rank, made from the mappings' sorted and grouped fields (EntityMadeFrom), and registered under its type. The new attribute tables are what Register gives for the mappings' declarations. A refused pair gives that pair's MappingError (TypeMappingRejected), and the entity tables are unchanged. |
| Rel.Schema.AppendEntityType | pkg/sql/schemachanger/rel/schema.go:222-223 | The entity type is appended to the list and registered in the map under its type. |
| Rel.Schema.Len | pkg/sql/schemachanger/rel/schema.go:38 | Len is the number of distinct registered types (the map's size), which is at most the list's length. |
| Rel.Schema.Swap | pkg/sql/schemachanger/rel/schema.go:43-47 | Exchanges two entries and rewrites their ranks, keeping every entry's rank equal to its position. The attribute and type tables are unchanged. |
| Rel.Schema.SortEntityTypes | pkg/sql/schemachanger/rel/schema.go:138 | The sort permutes the entity types and orders the first Len of them by the type ordering. Ranks still match positions, and the entries past Len are untouched. |
| Rel.Schema.AddDeclaredAttributes | pkg/sql/schemachanger/rel/schema.go:125-127 | Succeeds exactly when Register over the declarations succeeds, and then leaves Register's tables: every declared attribute is registered, and existing ordinals are kept. On failure the error is Register's. That error is the first refused declaration's (Rel.RegisterStops): every declaration before it is registered, and it is refused (not Admits) with its TooManyAttributes or TypeMismatch. |
| Rel.Schema.AddDeclaredAttribute | pkg/sql/schemachanger/rel/schema.go:125-127 | One turn of the first loop. Declaration i registers, so the registration of the first i declarations extends to the first i + 1. Or it is refused (not Admits) with its AttributeError, and then registering all the declarations fails with that error. |
| Rel.Schema.AddEntityTypes | pkg/sql/schemachanger/rel/schema.go:130-132 | On success there is one fresh entity type per mapping, the k-th made from the k-th mapping (MadeFromEach). The map's keys are exactly the mapped types, every mapped attribute is registered, and the tables are what Register gives for the mappings' declarations (EntityDecls). On failure, the entity types so far were made from the mappings before the refused one, whose error is as TypeMappingRejected states. |
| Rel.Schema.AddEntityMapping | pkg/sql/schemachanger/rel/schema.go:130-132 | One turn of the second loop. Mapping i appends one fresh entity type made from it, keyed by its type, and extends the registration of the first i mappings' declarations to the first i + 1. Or it is refused as TypeMappingRejected states, and the entity types are unchanged. |
| Rel.Schema.AddSystemAttributes | pkg/sql/schemachanger/rel/schema.go:134-137 | Succeeds exactly when Register over Self and Type (SystemDecls) succeeds, and then leaves Register's tables; a failure is Register's error, Self's or Type's TooManyAttributes or TypeMismatch. On success the self and type ordinals point at Self and Type. Starting from no attributes with room for two, it succeeds. |
| Rel.Schema.AddSelfAttribute | pkg/sql/schemachanger/rel/schema.go:134-135 | Registers Self with the empty interface type and records its ordinal, which then points at Self. The outcome is Register's on that declaration; a failure is refused (not Admits) with its AttributeError. |
| Rel.Schema.AddTypeAttribute | pkg/sql/schemachanger/rel/schema.go:136-137 | Registers Type with the reflect.Type type and records its ordinal, which then points at Type. Self's ordinal still points at Self. The outcome is Register's on that declaration; a failure is refused (not Admits) with its AttributeError. |
| Rel.Schema.AddAndGetOrdinal | pkg/sql/schemachanger/rel/schema.go:134-137 | Registers an attribute and returns its ordinal. It succeeds exactly when Admits holds, and its outcome is Register's on the one declaration. A new attribute below the limit is always appended. A failure is the attribute's TooManyAttributes or TypeMismatch. |
| Rel.Schema.OrdinalIsIndex | pkg/sql/schemachanger/rel/schema.go:151-160 | Under the schema invariant, an attribute's ordinal is its first position in attrs, which is what Register looks up. |
| Rel.Schema.RejectedAfter | pkg/sql/schemachanger/rel/schema.go:193-199 | A pair refused inside one attribute mapping, after earlier mappings made their fields, is the refused pair of the whole mapping list. |
| Rel.Schema.RejectedIsPhaseError | pkg/sql/schemachanger/rel/schema.go:185-199 | The error for a refused entity mapping is NotStructPointer or a pair's own error, never FailedToConstruct. |
| Rel.MadeFromEachStep | pkg/sql/schemachanger/rel/schema.go:130-132 | Appending an entity type made from the next mapping extends the index-by-index correspondence, even after more attributes were registered. |
| Rel.MappingHasEntity | pkg/sql/schemachanger/rel/schema.go:130-138 | After the entity types are reordered, each mapping still has an entity type made from it. |
| Rel.EntityHasMapping | pkg/sql/schemachanger/rel/schema.go:130-138 | After the entity types are reordered, each entity type was still made from some mapping. |
| Rel.MadeFromPermuted | pkg/sql/schemachanger/rel/schema.go:130-138 | Sorting keeps both directions of the correspondence between entity types and mappings. |
| Rel.MappedAtPosition | pkg/sql/schemachanger/rel/schema.go:43-46 | With distinct types, the entity registered for a type has as rank the position of that type in the list. |
| Rel.SameListedTypes | pkg/sql/schemachanger/rel/schema.go:28-29 | Two valid schemas whose type maps have the same keys list the same set of types in entityTypes. |
| Rel.RankIsDeterministic | pkg/sql/schemachanger/rel/schema.go:138 | Two schemas over the same distinct types, both sorted by a strict total order, give each type the same rank, whatever the registration order. |
| Rel.BuildSchema | pkg/sql/schemachanger/rel/schema.go:110-141 | On success the schema is valid (Built). Its attribute table is what Register gives for every declaration of the build (BuildDecls) from an empty table, so Self, Type and every declared and mapped attribute are registered. There is one entity type per mapping, keyed by the mapped types, in sorted order. Every mapping has an entity type made from it, and every entity type was made from a mapping (MadeForMappings). When the declared attribute types do not register, the result is exactly Register's error. Any failure is one phase's own error, never FailedToConstruct. Empty options with room for two attributes always succeed. |
| Rel.BuildUnsorted | pkg/sql/schemachanger/rel/schema.go:110-137 | The three registration phases. On success the schema is fresh, Registered (tables equal to Register over BuildDecls, Self and Type present, one entity type per mapping keyed by the mapped types), and the k-th entity type is made from the k-th mapping. Failures are as BuildSchema states. |
| Rel.RegisterPhases | pkg/sql/schemachanger/rel/schema.go:125-137 | Registering the declared types, then the mappings' declarations, then Self and Type, is registering BuildDecls from an empty table. |
| Rel.BuildTableOrder | pkg/sql/schemachanger/rel/schema.go:125-137 | The built attribute table is, in order: the declared attributes by first declaration, then the attributes first named by a mapping, then Self and Type where new. |
| Rel.BuildTableTypes | pkg/sql/schemachanger/rel/schema.go:125-166 | Every declaration of the build, declared or mapped, is registered with a recorded type that equals or accepts it (checkType). An attribute new at its declaration records that declaration's type. |
| Rel.BuiltAttributes | pkg/sql/schemachanger/rel/schema.go:110-141 | A built schema's attribute table has that order, and every declared attribute type is accepted by the recorded one. |
| Rel.NewSchema | pkg/sql/schemachanger/rel/schema.go:53-66 | A success is everything BuildSchema's success states (Built). A failure is FailedToConstruct wrapping the build's own error, which is never itself FailedToConstruct. Empty options with room for two attributes always succeed. |
| TableStorageParam.BoolFromDatum | pkg/sql/storageparam/tablestorageparam/table_storage_param.go:62-71 | A bool value is read as itself; any other value is refused with a bad-value error for the key. |
| TableStorageParam.IntFromDatum | pkg/sql/storageparam/tablestorageparam/table_storage_param.go:73-85 | An integer value is read as itself; any other value is refused. |
| TableStorageParam.FloatFromDatum | pkg/sql/storageparam/tablestorageparam/table_storage_param.go:87-99 | A float value is read as itself; any other value is refused. |
| TableStorageParam.StringFromDatum | pkg/sql/storageparam/tablestorageparam/table_storage_param.go:340 | A string value is read as itself; any other value is refused. |
| TableStorageParam.DurationFromDatum | pkg/sql/storageparam/tablestorageparam/table_storage_param.go:375 | An interval is read as its length; any other value is refused. |
| TableStorageParam.RegisterUnimplemented | pkg/sql/storageparam/tablestorageparam/table_storage_param.go:441-479 | init's loop adds every listed name and keeps every declared one. Listed names map to the unimplemented handler, overwriting a declared entry; other names keep their declared handler. |
| TableStorageParam.InitTableParams | pkg/sql/storageparam/tablestorageparam/table_storage_param.go:106-480 | The registry after init is the declared map with the 27 unimplemented names added. |
| TableStorageParam.DeclaredSurvivesInit | pkg/sql/storageparam/tablestorageparam/table_storage_param.go:441-480 | No declared parameter is among init's names, so every declared handler survives init unchanged. |
| TableStorageParam.InitKeepsDeclared | pkg/sql/storageparam/tablestorageparam/table_storage_param.go:441-480 | Every declared name is in the registry after init, with the handler the declared table gives it: init adds handlers and overwrites none. |
| TableStorageParam.UnimplementedParamsAreNotTtlKeys | pkg/sql/storageparam/tablestorageparam/table_storage_param.go:441-470 | None of init's names starts with "ttl_", so the pending-mutation guard never applies to them. |
| TableStorageParam.TtlKeyShapes | pkg/sql/storageparam/tablestorageparam/table_storage_param.go:570 | The ten ttl_ parameters carry the "ttl_" prefix. The parameters ttl and exclude_data_from_backup do not. |
| TableStorageParam.WithIntField | pkg/sql/storageparam/tablestorageparam/table_storage_param.go:229-316 | Writing one integer TTL field sets that field and leaves the other three and every other field of the record as they were. |
| TableStorageParam.EnsureTTL | pkg/sql/storageparam/tablestorageparam/table_storage_param.go:231-233 | An existing TTL record is kept. A missing one becomes the zero record. Nothing else changes. |
| TableStorageParam.EnsureAutoStats | pkg/sql/storageparam/tablestorageparam/table_storage_param.go:494-496 | An existing auto-stats record is kept. A missing one becomes the empty record. Nothing else changes. |
| TableStorageParam.AutoStatsReset | pkg/sql/storageparam/tablestorageparam/table_storage_param.go:543-560 | Without a record it does nothing. With one, it fails exactly when the key names none of the three settings, and then changes nothing. It never creates or removes the record and touches nothing outside it. |
| TableStorageParam.PostCheck | pkg/sql/storageparam/tablestorageparam/table_storage_param.go:47-60 | Reports the missing-expiration error exactly when ttl_automatic_column was set and there is no TTL record or no expiration expression. It succeeds exactly when that is not the case and the TTL validator accepts. |
| TableStorageParam.PendingMutationsBlockTtlKeys | pkg/sql/storageparam/tablestorageparam/table_storage_param.go:570-588 | While the table has pending mutations, SET and RESET of any ttl_ key are refused with the pending-schema-change error and change nothing, whether or not the key is registered. |
| TableStorageParam.UnknownKeysRejected | pkg/sql/storageparam/tablestorageparam/table_storage_param.go:576-579 | A key without a handler is refused with invalid-parameter, or with the pending-mutation error when the guard applies first. Nothing changes, and RESET behaves the same. |
| TableStorageParam.UnimplementedParamsKnown | pkg/sql/storageparam/tablestorageparam/table_storage_param.go:471-479 | Each of init's names is registered. SET of one fails as unimplemented (issue 43299) and RESET succeeds; neither changes anything. |
| TableStorageParam.RegisteredFillFactor | pkg/sql/storageparam/tablestorageparam/table_storage_param.go:107-115 | fillfactor reaches the fill-factor handler. |
| TableStorageParam.RegisteredAutovacuumEnabled | pkg/sql/storageparam/tablestorageparam/table_storage_param.go:116-143 | autovacuum_enabled reaches its handler and is not overwritten by init's autovacuum names. |
| TableStorageParam.RegisteredTtl | pkg/sql/storageparam/tablestorageparam/table_storage_param.go:144-164 | ttl reaches the TTL toggle. |
| TableStorageParam.RegisteredTtlAutomaticColumn | pkg/sql/storageparam/tablestorageparam/table_storage_param.go:165-182 | ttl_automatic_column reaches its handler. |
| TableStorageParam.RegisteredTtlExpireAfter | pkg/sql/storageparam/tablestorageparam/table_storage_param.go:183-228 | ttl_expire_after reaches its handler. |
| TableStorageParam.RegisteredTtlSelectBatchSize | pkg/sql/storageparam/tablestorageparam/table_storage_param.go:229-250 | ttl_select_batch_size reaches the integer setter of SelectBatchSize. |
| TableStorageParam.RegisteredTtlDeleteBatchSize | pkg/sql/storageparam/tablestorageparam/table_storage_param.go:251-272 | ttl_delete_batch_size reaches the integer setter of DeleteBatchSize. |
| TableStorageParam.RegisteredTtlRangeConcurrency | pkg/sql/storageparam/tablestorageparam/table_storage_param.go:273-294 | ttl_range_concurrency reaches the integer setter of RangeConcurrency. |
| TableStorageParam.RegisteredTtlDeleteRateLimit | pkg/sql/storageparam/tablestorageparam/table_storage_param.go:295-316 | ttl_delete_rate_limit reaches the integer setter of DeleteRateLimit. |
| TableStorageParam.RegisteredTtlInt | pkg/sql/storageparam/tablestorageparam/table_storage_param.go:229-316 | Each integer TTL field is reached through its own key. |
| TableStorageParam.RegisteredTtlLabelMetrics | pkg/sql/storageparam/tablestorageparam/table_storage_param.go:317-333 | ttl_label_metrics reaches its handler. |
| TableStorageParam.RegisteredTtlJobCron | pkg/sql/storageparam/tablestorageparam/table_storage_param.go:334-355 | ttl_job_cron reaches its handler. |
| TableStorageParam.RegisteredTtlPause | pkg/sql/storageparam/tablestorageparam/table_storage_param.go:356-372 | ttl_pause reaches its handler. |
| TableStorageParam.RegisteredTtlRowStatsPollInterval | pkg/sql/storageparam/tablestorageparam/table_storage_param.go:373-392 | ttl_row_stats_poll_interval reaches its handler. |
| TableStorageParam.RegisteredExcludeDataFromBackup | pkg/sql/storageparam/tablestorageparam/table_storage_param.go:393-426 | exclude_data_from_backup reaches its handler. |
| TableStorageParam.RegisteredAutoStats | pkg/sql/storageparam/tablestorageparam/table_storage_param.go:427-438 | The three auto-stats setting names reach their handlers. |
| TableStorageParam.TtlToggle | pkg/sql/storageparam/tablestorageparam/table_storage_param.go:144-164 | SET ttl = true creates the zero TTL record only when there is none. SET ttl = false and RESET ttl remove the record. A non-bool value is refused and changes nothing. |
| TableStorageParam.TtlIntSetCreatesFirst | pkg/sql/storageparam/tablestorageparam/table_storage_param.go:229-316 | The record is created before the value is read. It succeeds exactly for an integer the validator accepts, and then sets that field only. A refused value leaves the record created but the field unchanged. RESET zeroes the field when the record exists and otherwise does nothing. |
| TableStorageParam.ExpireAfterRules | pkg/sql/storageparam/tablestorageparam/table_storage_param.go:183-228 | A non-interval or a negative interval is refused and changes nothing. Otherwise the record is created if needed and only its expiration expression is set. RESET is always refused. |
| TableStorageParam.AutomaticColumnRules | pkg/sql/storageparam/tablestorageparam/table_storage_param.go:165-182 | true only records the request, and the post check then fails while there is no expiration expression. false changes nothing and fails exactly while TTL is on. RESET is refused as unimplemented. |
| TableStorageParam.ExpireAfterSatisfiesAutomaticColumn | pkg/sql/storageparam/tablestorageparam/table_storage_param.go:47-60 | Setting ttl_automatic_column and then a non-negative ttl_expire_after passes the first post check, leaving only the TTL validator to decide. |
| TableStorageParam.TtlFieldResets | pkg/sql/storageparam/tablestorageparam/table_storage_param.go:329-332 | On an existing TTL record, RESET of ttl_label_metrics, ttl_pause or ttl_row_stats_poll_interval clears exactly that field and changes nothing else. |
| TableStorageParam.ExcludeDataFromBackupRules | pkg/sql/storageparam/tablestorageparam/table_storage_param.go:393-426 | A temporary table and a table with inbound foreign keys are refused, in that order, changing nothing. Otherwise a bool is stored and a non-bool refused. RESET clears the flag. |
| TableStorageParam.AutoStatsResetClearsNamedField | pkg/sql/storageparam/tablestorageparam/table_storage_param.go:543-560 | Without a record RESET does nothing. A key naming none of the three settings is refused. Otherwise only the named setting is cleared. |
| TableStorageParam.AutoStatsEnabledSet | pkg/sql/storageparam/tablestorageparam/table_storage_param.go:482-499 | A bool is stored in the record, which is created if needed. A non-bool is refused before anything is created. |
| TableStorageParam.AutoStatsMinStaleSet | pkg/sql/storageparam/tablestorageparam/table_storage_param.go:501-520 | A non-integer is refused and changes nothing. The record is then created. A negative count fails, leaving the record created but the setting unset. Otherwise the setting is stored. |
| TableStorageParam.AutoStatsFractionStaleSet | pkg/sql/storageparam/tablestorageparam/table_storage_param.go:522-541 | The same order for the stale-row fraction and the non-negative float check. |
| TableStorageParam.FailedSetOnlyCreatesEmptyRecords | pkg/sql/storageparam/tablestorageparam/table_storage_param.go:106-439 | A failed SET of any key changes nothing, except possibly creating an empty TTL or auto-stats record that did not exist. |
| TableStorageParam.SetKeepsTableShape | pkg/sql/storageparam/tablestorageparam/table_storage_param.go:562-580 | SET never changes the temporary flag, the foreign keys or the pending mutations, and never removes an auto-stats record. Only a successful ttl_automatic_column = true raises the automatic-column request. |
| TableStorageParam.ResetIdempotent | pkg/sql/storageparam/tablestorageparam/table_storage_param.go:582-594 | RESET never creates a record, and repeating a successful RESET changes nothing more. |
| TableStorageParam.TableDescriptor.constructor | pkg/sql/storageparam/tablestorageparam/table_storage_param.go:35-36 | A descriptor holds the given TTL record, auto-stats settings, flag, temporary marker, foreign keys and mutations. |
| TableStorageParam.Setter.constructor | pkg/sql/storageparam/tablestorageparam/table_storage_param.go:42-45 | NewSetter wraps the descriptor with the automatic-column request off. |
| TableStorageParam.Setter.RunPostChecks | pkg/sql/storageparam/tablestorageparam/table_storage_param.go:47-60 | Returns what PostCheck states of the current descriptor and request flag. |
| TableStorageParam.Setter.EnsureRowLevelTTL | pkg/sql/storageparam/tablestorageparam/table_storage_param.go:231-233 | Creates the descriptor's TTL record in place only when it is missing, as EnsureTTL states. |
| TableStorageParam.Setter.EnsureAutoStatsSettings | pkg/sql/storageparam/tablestorageparam/table_storage_param.go:494-496 | Creates the auto-stats record in place only when it is missing, as EnsureAutoStats states. |
| TableStorageParam.Setter.Set | pkg/sql/storageparam/tablestorageparam/table_storage_param.go:562-580 | Applies the guard, then the registered handler in place, leaving the error and descriptor that SetOutcome gives. |
| TableStorageParam.Setter.Reset | pkg/sql/storageparam/tablestorageparam/table_storage_param.go:582-594 | Applies the guard, then the registered onReset in place, leaving the error and descriptor that ResetOutcome gives. |
| TableStorageParam.Setter.SetTtl | pkg/sql/storageparam/tablestorageparam/table_storage_param.go:145-159 | Updates the descriptor as OnSet's ttl case states (see TtlToggle). |
| TableStorageParam.Setter.SetTtlAutomaticColumn | pkg/sql/storageparam/tablestorageparam/table_storage_param.go:166-178 | Updates the setter's request flag as OnSet's ttl_automatic_column case states. |
| TableStorageParam.Setter.SetTtlExpireAfter | pkg/sql/storageparam/tablestorageparam/table_storage_param.go:184-218 | Updates the descriptor as OnSet's ttl_expire_after case states. |
| TableStorageParam.Setter.SetTtlInt | pkg/sql/storageparam/tablestorageparam/table_storage_param.go:229-316 | Creates the record, then reads, validates and writes the field, as OnSet's integer case states. |
| TableStorageParam.Setter.SetTtlLabelMetrics | pkg/sql/storageparam/tablestorageparam/table_storage_param.go:318-328 | Creates the record, then reads and writes the flag. |
| TableStorageParam.Setter.SetTtlJobCron | pkg/sql/storageparam/tablestorageparam/table_storage_param.go:335-348 | Creates the record, then reads, validates and writes the cron expression. |
| TableStorageParam.Setter.SetTtlPause | pkg/sql/storageparam/tablestorageparam/table_storage_param.go:357-367 | Reads the bool, then creates the record and writes the flag. |
| TableStorageParam.Setter.SetTtlRowStatsPollInterval | pkg/sql/storageparam/tablestorageparam/table_storage_param.go:374-387 | Reads the interval, creates the record, then validates and writes it. |
| TableStorageParam.Setter.SetExcludeDataFromBackup | pkg/sql/storageparam/tablestorageparam/table_storage_param.go:394-421 | Checks temporary, then the foreign keys, then reads and stores the flag. |
| TableStorageParam.Setter.SetAutoStatsEnabled | pkg/sql/storageparam/tablestorageparam/table_storage_param.go:482-499 | Reads the bool, then creates the record and stores the setting. |
| TableStorageParam.Setter.SetAutoStatsMinStale | pkg/sql/storageparam/tablestorageparam/table_storage_param.go:501-520 | Reads the integer, creates the record, then validates and stores it. |
| TableStorageParam.Setter.SetAutoStatsFractionStale | pkg/sql/storageparam/tablestorageparam/table_storage_param.go:522-541 | Reads the float, creates the record, then validates and stores it. |
| TableStorageParam.Setter.ResetAutoStats | pkg/sql/storageparam/tablestorageparam/table_storage_param.go:543-560 | Clears the named setting in place as AutoStatsReset states. |

## Left out

- Go's `reflect` and `unsafe` are not modelled directly. Types are the
  abstract `RelTypes.Type`, entity instances are maps from offsets to cells,
  and accessors return a `Boxed` value. `Type.Implements`, `compareTypes` and
  `getComparableType` are caller-supplied parameters.
- `maxUserAttribute` (defined outside schema.go) is a parameter of the schema
  constructor.
- Panics are `Err` results. `MustSchema` (schema.go:69-71) is `BuildSchema`
  without the `FailedToConstruct` wrapping that `NewSchema` adds. Error texts
  are reduced to `BuildError` variants, except the unknown-attribute message
  of `getOrdinal`. There `Self` and `Type` print as `Self` and `Type`; their
  `String` methods are not part of this model.
- RelTypes.FieldByName: looks only at the struct's direct members. Go's
  `reflect` `FieldByName` also finds fields promoted from embedded structs.
  On a type that is not a struct, `reflect` panics, and `NewSchema`
  (schema.go:60-61) turns that panic into an assertion failure; the model
  gives `NotAField` instead.
- RelTypes.ToWord: `uintptr` is taken to be 64 bits wide. The word size of
  32-bit platforms is not modelled.
- Rel.BuildSchema: when the whole build succeeds is not stated as an
  if-and-only-if. A success pins the attribute table to `Register` over all
  the build's declarations. A failure of the first phase is exactly
  `Register`'s failure over the declared attribute types. A failure in the
  mapping phase is described by `AddEntityTypes` (`TypeMappingRejected`), and
  one among Self and Type by `AddSystemAttributes`. `BuildSchema` itself
  states only that such failures are not `FailedToConstruct`.
- Rel.Schema.CollectFields, Rel.Schema.CollectSelectorFields,
  Rel.Schema.MaybeAddTypeMapping, Rel.Schema.AddEntityTypes: the tie to
  `Register` is stated for success only. A selector that does not resolve or
  has an unsupported type makes no declaration, so its refusal is not a
  `Register` failure; it is stated by `RejectedAt` and `TypeMappingRejected`
  instead.
- The rules fields (`rules`, `rulesByName`) and `stringAttrs` of `Schema` are
  not touched by this file and are left out.
- RelTypes.SortByAttr: `sort.Slice` is modelled as an insertion sort. Only
  sortedness and permutation are claimed, not the pdqsort order of equal
  attributes.
- Rel.Schema.SortEntityTypes: `sort.Sort` is modelled as an insertion sort
  over the first `Len()` entries. Only the outcome (permutation, order, ranks)
  is claimed, not the exact sequence of swaps.
- Datum parsing (`paramparse`, `tree.ParseDInt`, `tree.ParseDFloat`,
  `ParseDInterval`, `ParseBoolVar`) is not modelled. A value arrives already
  parsed as a `Datum`, and a string the source would parse is given as the
  parsed value.
- Intervals are lengths in nanoseconds. `duration.Compare`'s normalisation of
  months and days is not modelled, and the serialised `DurationExpr` text is
  represented by the interval itself.
- The `tabledesc.Validate*` checks, `storageparam.SetFillFactor` and the
  whole-record `ValidateRowLevelTTL` are caller-supplied predicates
  (`Validators`). `settings.NonNegativeInt` and `NonNegativeFloat` are written
  out.
- Floats are Dafny `real`s. NaN and rounding are not modelled.
- The client notice sent for `autovacuum_enabled = false` is I/O and is not
  modelled. The contexts (`ctx`, `semaCtx`, `evalCtx`) are dropped.
- `RowLevelTTL` and `AutoStatsSettings` are values held by the descriptor, not
  shared pointers. Aliasing of those records with other holders is not
  captured.
- The `tableParams` package variable is passed to `Set`/`Reset` as the
  `params` argument. `TableStorageParam.InitTableParams` proves what it holds
  after init.
- TableStorageParam.OnReset: the onReset handlers of ttl_label_metrics,
  ttl_pause and ttl_row_stats_poll_interval (table_storage_param.go:329-332,
  368-371, 388-391) write through the TTL record without checking that it
  exists. Reached without a record, the source dereferences nil. The model
  makes the record's presence a precondition instead of modelling the crash.
- TableStorageParam.Setter.Reset: requires `ResetDefined` for the same reason.
- Error texts and pgcodes are reduced to the `Error` variants.
- The table descriptor's other fields and `AllMutations()` are reduced to the
  fields used here; the pending mutations are a count.
