# Timestamp-format fields for PostGraphile, modelled in Dafny

The plugin `index.mjs` hooks into PostGraphile's `GraphQLObjectType:fields` step. For every GraphQL type backed by a table, it adds one field per eligible `timestamptz` column. The field is named `<column>Formatted` by default. It takes optional `format` and `tz` arguments. When a query selects the field, the plugin asks PostgreSQL for `public.date_format_tz(<alias>.<column>, <format>, <tz>)` and hands the selected value back through the host's value conversion.

The model has one module per part of that pipeline:

- `Catalog`: the introspected table, its attributes and constraints, and the hook's scope.
- `Sql`: SQL fragments as fixed text, identifiers and bound parameters. `Compile` turns a fragment into query text with `$n` placeholders plus the list of bound values.
- `Host`: what the schema builder provides. That is the host services (column filter, omit check, inflection, safe aliases, `pg2gqlForType`), `extend`, and a `QueryBuilder` class whose `Select` appends to its select list.
- `PluginOptions`: `nameFn` and `defaultFormat` with their defaults.
- `FieldSynthesis`: the table guard, the column filter, the namer, `nullableIf`, the `reduce` fold and the hook itself.
- `DataGeneration`: `tz`/`format` resolution, the selected expression, `pgQuery` (a method on the query builder) and `resolve`.
- `Scenarios`: concrete cases on an `orders` table.

The host services are function-valued fields of `Host.Services` and are passed in as parameters, so every property holds for any filter, inflector, alias scheme and conversion. `extend` is modelled with the behaviour of graphile-build's helper, whose code is not part of this model: it merges two maps and throws a naming conflict when the extra map redefines a key the base map already has.

Three details of the code the model keeps:

- The brackets wrap the whole call, `(public.date_format_tz(...))` (index.mjs:102).
- An argument counts as given when it is JavaScript-truthy. An empty `format` or `tz` string counts as absent and falls back to the default format or the session time zone (index.mjs:91-92).
- Two eligible columns with the same derived name, or a derived name that clashes with an existing field, make the hook throw. The throw comes from `extend`, and no field is silently dropped.

## Model

| member | source | states |
|---|---|---|
| `FieldSynthesis.NullableIf` | index.mjs:1-4 | The result is the type itself exactly when the condition holds. Otherwise it is the non-null wrapper of that type. |
| `FieldSynthesis.Applies` | index.mjs:46-52 | The hook does not apply to a type that is neither a row nor a compound type, to one without introspection, or to one whose introspected entity is not a `class`. When it applies, a table is present. |
| `FieldSynthesis.Eligible` | index.mjs:57-72 | An eligible column passes the column filter and is readable. A column that is not `timestamptz`, is in the primary key, or is in any foreign-key constraint is never eligible. |
| `FieldSynthesis.Step` | index.mjs:57-79 | One step of the fold throws exactly when the column is eligible and its derived name is already taken. On success it keeps every earlier entry and adds at most the derived name as a key. |
| `FieldSynthesis.Collect` | index.mjs:56-146 | A fold over columns none of which is eligible returns the starting map unchanged. |
| `FieldSynthesis.DefaultDerivedName` | index.mjs:74 | With the default options the derived name is the inflected column name followed by `Formatted`. |
| `FieldSynthesis.ExtendFields` | index.mjs:46-56 | Returns the incoming fields unchanged unless the type is a row or compound type backed by a `class`. Whenever it succeeds, every existing field keeps its key and value. |
| `FieldSynthesis.SomeForeignKeyIncludes` | index.mjs:71 | True exactly when some constraint of kind `f` lists the column's ordinal. |
| `FieldSynthesis.StepFiltersEligible` | index.mjs:57-79 | The chain of early returns leaves the accumulator unchanged for a column that fails any of the five conditions. Otherwise it extends the accumulator with that column's field under its derived name. |
| `FieldSynthesis.EligibleOfMembers` | index.mjs:56-72 | The filtered list holds a column exactly when the column is in the table and is visible, readable, `timestamptz`, outside the primary key and outside every foreign key. |
| `FieldSynthesis.NamesOfAt` | index.mjs:74 | The i-th derived name is `nameFn(inflection.column(attr))` of the i-th column. |
| `FieldSynthesis.NoConflictCons` | index.mjs:76-79 | Adding a name, then the rest of the names, causes no clash exactly when that name is new and the rest clash neither with each other nor with the enlarged key set. |
| `FieldSynthesis.DistinctCard` | index.mjs:76-79 | Pairwise distinct names give as many map keys as names. |
| `FieldSynthesis.CollectUnfold` | index.mjs:56-79 | One step of the fold skips an ineligible column. For an eligible one it throws when the name is already taken, and otherwise adds the field before folding the rest. |
| `FieldSynthesis.CollectSucceedsIff` | index.mjs:56-146 | For any starting map, the fold succeeds iff the eligible columns' derived names are pairwise distinct and absent from the map. |
| `FieldSynthesis.CollectKeys` | index.mjs:56-146 | A fold that succeeds keeps every earlier entry and adds exactly the derived names as keys. |
| `FieldSynthesis.CollectAddsEligible` | index.mjs:56-146 | A fold that succeeds holds each eligible column's field under its derived name. Every entry it adds is the field of an eligible column. |
| `FieldSynthesis.ExtendFieldsFailsIffConflict` | index.mjs:54-79 | For an admitted type, the hook throws exactly when the derived names repeat or clash with an existing field. |
| `FieldSynthesis.MergeDistinctNames` | index.mjs:54-56 | Merging the derived map into the existing fields adds one key per distinct derived name and takes the new entries from the derived map. |
| `FieldSynthesis.ExtendFieldsKeys` | index.mjs:54-146 | On success the result's keys are the old keys plus the derived names, with exactly one new entry per eligible column. |
| `FieldSynthesis.ExtendFieldsAddsEligible` | index.mjs:54-146 | On success each eligible column's field sits under its derived name. Each new entry is the field of an eligible column of the table, so no other column gets one. |
| `FieldSynthesis.NonForeignConstraintsNeverExclude` | index.mjs:71 | Two constraint lists with the same foreign-key constraints give every column the same eligibility. So adding, removing or reordering constraints of any other kind changes nothing. |
| `FieldSynthesis.MissingPrimaryKeyExcludesNothing` | index.mjs:67 | Without a primary-key constraint, eligibility is the other four conditions alone. |
| `FieldSynthesis.DeclaredType` | index.mjs:122-128 | The field is `NonNull(String)` iff the column is not-null, or its domain is, or it carries a truthy `notNull` tag. Otherwise it is a nullable `String`. |
| `FieldSynthesis.MakeField` | index.mjs:74-136 | The field carries the derived name, the column, exactly the two `String` arguments `format` and `tz`, and the configured default format. Its type is `DeclaredType` of the column, non-null exactly when a not-null signal is present. |
| `PluginOptions.DefaultNameFn` | index.mjs:15 | The default name is the inflected name followed by `Formatted`. |
| `PluginOptions.DefaultOptions` | index.mjs:14-17 | The defaults are that namer and the format `YYYY-MM-DD"T"HH24:MI:SSOF`. |
| `PluginOptions.DefaultNameFnInjective` | index.mjs:15 | The default namer maps distinct inflected names to distinct field names. |
| `Host.Extend` | index.mjs:76-79 | `extend` succeeds iff the two maps share no key. It then keeps both maps' entries. Otherwise it reports the shared keys. |
| `Host.QueryBuilder.Select` | index.mjs:97-107 | `select` appends exactly one selection, the given value under the given alias. |
| `DataGeneration.TzFragment` | index.mjs:91 | The time-zone fragment is a single node. It binds the caller's `tz` when given. Otherwise it binds nothing and is the fixed text `current_setting('TimeZone')`. |
| `DataGeneration.FormatFragment` | index.mjs:92 | The format fragment is a single bound parameter whose value is the effective format: the caller's when given, else the default. |
| `DataGeneration.Generate` | index.mjs:82-92 | The plan carries the field's column name, type and type modifier and the selection's alias. The generator binds the caller's format when given, else the default format. It binds the caller's time zone only when given, else nothing. |
| `DataGeneration.DateFormatCall` | index.mjs:102 | The call starts with `(public.date_format_tz(` and ends with `))`, so the brackets wrap the whole call. It references the column qualified by the table alias. The format and time-zone fragments sit unchanged in the argument positions, each preceded by a `, ` separator. |
| `DataGeneration.SelectedValue` | index.mjs:97-106 | The selection has return type `String` and carries the column's type and modifier. Its expression binds the format fragment's values, then the time-zone fragment's. |
| `DataGeneration.PgQuery` | index.mjs:95-108 | `pgQuery` appends exactly one selection: the `date_format_tz` call over the builder's table alias and this column, under the safe alias of the selection's response alias. |
| `DataGeneration.DateFormatCallParams` | index.mjs:102 | The call template binds the values of its format fragment, then those of its time-zone fragment, and nothing else. |
| `DataGeneration.DateFormatCallShape` | index.mjs:102 | The shape of the call, with parameter values blanked out, is fixed by the shapes of the format and time-zone fragments. |
| `DataGeneration.DateFormatCallNodes` | index.mjs:102 | Every node of the call is a fixed piece of text, the table alias, the column identifier, or a node of the format or time-zone fragment. |
| `DataGeneration.SelectedExpressionBindings` | index.mjs:91-102 | The selected expression binds exactly the effective format, then the time zone if given. |
| `DataGeneration.SelectedExpressionFixedText` | index.mjs:91-102 | All fixed text of the selected expression comes from a constant set whatever the arguments. Its only identifiers are the table alias and the column. |
| `DataGeneration.ShapeIgnoresArgumentValues` | index.mjs:91-102 | With the parameter values blanked out, the expression is the same for any argument strings and any default format. Only whether a time zone was given matters. |
| `DataGeneration.QueryTextIndependentOfArguments` | index.mjs:91-102 | The compiled SQL text is identical for any caller `format`/`tz` strings. Those strings reach the database only as bound values. |
| `DataGeneration.NoArgumentsUseDefaults` | index.mjs:91-92 | With no arguments, the only bound value is the default format, and the time zone is `current_setting('TimeZone')`. |
| `DataGeneration.EmptyArgumentsCountAsAbsent` | index.mjs:91-92 | Empty-string arguments behave exactly like missing ones. |
| `DataGeneration.Cell` | index.mjs:131 | A cell lookup finds a value exactly when the row has the key, and that value is the row's entry. A missing key gives `undefined`. |
| `DataGeneration.Resolve` | index.mjs:129-132 | `resolve` converts the row's entry under the safe alias when the row has it. Otherwise it converts `undefined`. |
| `DataGeneration.ResolveReadsSelectedAlias` | index.mjs:129-132 | `resolve` returns the converted value of the row cell stored under the alias `pgQuery` selected into. |
| `DataGeneration.ResolveReadsOneCell` | index.mjs:129-132 | `resolve` depends on no other cell of the row. |
| `Scenarios.OrdersGetCreatedAtFormatted` | index.mjs:54-128 | A table with an integer key `id` and a not-null `created_at timestamptz` gets exactly `createdAtFormatted`, a non-null `String` with `format` and `tz` arguments. |
| `Scenarios.PrimaryKeyTimestampGetsNoField` | index.mjs:66-68 | A `timestamptz` primary-key column gets no derived field. |
| `Scenarios.ExplicitArgumentsAreBound` | index.mjs:91-92 | `format: "YYYY", tz: "UTC"` bind exactly those two values. |
| `Scenarios.SelectCreatedAtFormatted` | index.mjs:95-131 | One selection through a fresh query builder lands under the alias `resolve` reads. It binds the caller's strings as values, and `resolve` returns that cell converted. |

## Left out

- Hook registration, the `PgColumns` dependency, and the dispatch of `fieldWithHooks` and `addDataGenerator` are host machinery. The model gives the field record and the data generator as values and functions instead.
- GraphQL type objects are reduced to `String` and `NonNull(String)`, the only types the plugin builds.
- `pgGetSelectValueForFieldAndTypeAndModifier` is host code. The selection records the arguments the plugin passes it (return type, expression, column type and modifier); its own rewriting of the expression is not modelled. The field context and the parsed fragment it also receives are not recorded.
- `pg2gqlForType` is an arbitrary host function of the column type. What it does to a `text` value is not modelled.
- `getSafeAliasFromResolveInfo` is taken to be `getSafeAliasFromAlias` applied to the resolve info's response alias, which is how graphile-build defines it.
- `Host.Extend`: on a conflict, graphile-build's `extend` throws for the first clashing key, with a hint; the model reports the set of all shared keys.
- The formatting and time-zone conversion done by the database function `date_format_tz` run in PostgreSQL and are not modelled.
- Descriptions and debug hints (`describePgEntity`, `sqlCommentByAddingTags`, the field and argument descriptions) are documentation strings only.
- Query execution and the database round trip are I/O performed by the host. A result row is a parameter of `resolve`.
- `Sql.Compile` renders parameters as `$n` and identifiers with doubled quotes. It stands for the host's SQL compiler only as far as the injection-safety statement needs, and the host's own rendering is not modelled.
- `FieldSynthesis.Fields` is an unordered map, so the model does not keep field order. In the source the existing fields come first, then the derived fields in attribute order, and that order becomes the GraphQL field order.
- The incoming fields of the hook are typed as `FieldSynthesis.DerivedField`. They stand in for the arbitrary field specifications other plugins added. The hook only reads their keys and keeps their values, so nothing depends on their contents.
- Running the hook twice on the same input gives the same result because every part of it is a function, so no separate idempotence lemma is stated.
