/**
 * What a derived field does when a query selects it: the data generator
 * resolves the `format` and `tz` arguments, `pgQuery` selects
 * `(public.date_format_tz(<alias>.<column>, <format>, <tz>))` under the
 * field's safe alias, and `resolve` reads that alias back from the row.
 */
module DataGeneration {
  import opened Wrappers
  import opened Catalog
  import opened Sql
  import opened Host
  import opened FieldSynthesis

  /** The caller's arguments; an absent or `null` argument is `None`. */
  datatype FieldArgs = FieldArgs(format: Option<string>, tz: Option<string>)

  /** The parsed resolve-info fragment of one selection of the field: its response alias and arguments. */
  datatype ResolveFragment = ResolveFragment(alias: string, args: FieldArgs)

  /** The resolver's view of the GraphQL resolve info: the response alias being resolved. */
  datatype ResolveInfo = ResolveInfo(alias: string)

  /** JavaScript truthiness of a string argument: present and not empty. */
  predicate Given(arg: Option<string>)
  {
    arg.Some? && arg.value != ""
  }

  const CurrentTimeZone: string := "current_setting('TimeZone')"

  /** `args.tz ? sql.value(args.tz) : sql.fragment`current_setting('TimeZone')``. */
  function TzFragment(tz: Option<string>): (r: Fragment)
    ensures |r| == 1
    ensures Params(r) == if Given(tz) then [tz.value] else []
    ensures !Given(tz) ==> r[0] == Raw(CurrentTimeZone)
  {
    if Given(tz) then [Param(tz.value)] else [Raw(CurrentTimeZone)]
  }

  /** `args.format ? sql.value(args.format) : sql.value(defaultFormat)`. */
  function FormatFragment(format: Option<string>, defaultFormat: string): (r: Fragment)
    ensures |r| == 1 && r[0].Param?
    ensures Params(r) == [EffectiveFormat(format, defaultFormat)]
  {
    if Given(format) then [Param(format.value)] else [Param(defaultFormat)]
  }

  /** The format string that ends up bound: the caller's when given, the configured default otherwise. */
  function EffectiveFormat(format: Option<string>, defaultFormat: string): string
  {
    if Given(format) then format.value else defaultFormat
  }

  /** What the data generator returns for one selection: the resolved argument fragments, ready for `pgQuery`. */
  datatype Generated = Generated(column: string, pgType: PgType, typeModifier: Option<int>, format: Fragment, tz: Fragment, alias: string)

  /** The data generator registered for `field`, applied to one parsed selection. */
  function Generate(field: DerivedField, fragment: ResolveFragment): (g: Generated)
    ensures g.column == field.attr.name && g.alias == fragment.alias
    ensures g.pgType == field.attr.typ && g.typeModifier == field.attr.typeModifier
    ensures Params(g.format) == [EffectiveFormat(fragment.args.format, field.defaultFormat)]
    ensures Params(g.tz) == if Given(fragment.args.tz) then [fragment.args.tz.value] else []
  {
    Generated(field.attr.name, field.attr.typ, field.attr.typeModifier,
              FormatFragment(fragment.args.format, field.defaultFormat),
              TzFragment(fragment.args.tz), fragment.alias)
  }

  /** `(public.date_format_tz(<tableAlias>.<column>, <format>, <tz>))`; the outer brackets keep row-field access unambiguous. */
  function DateFormatCall(tableAlias: string, column: string, format: Fragment, tz: Fragment): (r: Fragment)
    ensures |r| == |format| + |tz| + 7
    ensures r[0] == Raw("(public.date_format_tz(") && r[|r| - 1] == Raw("))")
    ensures r[1..4] == [Ident(tableAlias), Raw("."), Ident(column)]
    ensures r[4] == Raw(", ") && r[5 + |format|] == Raw(", ")
    ensures r[5..5 + |format|] == format && r[6 + |format|..|r| - 1] == tz
  {
    [Raw("(public.date_format_tz("), Ident(tableAlias), Raw("."), Ident(column), Raw(", ")]
    + format + [Raw(", ")] + tz + [Raw("))")]
  }

  /** The value `pgQuery` selects for a generated plan in a query whose table alias is `tableAlias`. */
  function SelectedValue(g: Generated, tableAlias: string): (v: SelectValue)
    ensures v.returnType == GraphQLString && v.pgType == g.pgType && v.typeModifier == g.typeModifier
    ensures Params(v.expression) == Params(g.format) + Params(g.tz)
  {
    DateFormatCallParams(tableAlias, g.column, g.format, g.tz);
    SelectValue(GraphQLString, DateFormatCall(tableAlias, g.column, g.format, g.tz), g.pgType, g.typeModifier)
  }

  /** `pgQuery`: appends the formatting expression to the query builder under the selection's safe alias. */
  method PgQuery(host: Services, g: Generated, queryBuilder: QueryBuilder)
    modifies queryBuilder
    ensures queryBuilder.selections ==
      old(queryBuilder.selections) + [Selection(SelectedValue(g, queryBuilder.tableAlias), host.safeAlias(g.alias))]
  {
    queryBuilder.Select(SelectedValue(g, queryBuilder.tableAlias), host.safeAlias(g.alias));
  }

  /** `data[key]`: `undefined` when the row has no such key. */
  function Cell(data: Row, key: string): (r: Option<PgValue>)
    ensures r.Some? <==> key in data
    ensures r.Some? ==> r.value == data[key]
  {
    if key in data then Some(data[key]) else None
  }

  /** `resolve`: the row's value under the selection's safe alias, converted by `pg2gqlForType(attr.type)`. */
  function Resolve(host: Services, field: DerivedField, data: Row, info: ResolveInfo): (r: GqlValue)
    ensures host.safeAlias(info.alias) in data ==> r == host.pg2gql(field.attr.typ)(Some(data[host.safeAlias(info.alias)]))
    ensures host.safeAlias(info.alias) !in data ==> r == host.pg2gql(field.attr.typ)(None)
  {
    host.pg2gql(field.attr.typ)(Cell(data, host.safeAlias(info.alias)))
  }

  // ---------------------------------------------------------------------------
  // Properties of the selected expression and of the resolver.

  /** The fixed SQL text pieces of the expression; none of them comes from the caller. */
  const FixedText: set<string> := {"(public.date_format_tz(", ".", ", ", "))", CurrentTimeZone}

  /** The call binds the values of its format fragment, then those of its time-zone fragment, and nothing else. */
  lemma DateFormatCallParams(tableAlias: string, column: string, format: Fragment, tz: Fragment)
    ensures Params(DateFormatCall(tableAlias, column, format, tz)) == Params(format) + Params(tz)
  {
    var head := [Raw("(public.date_format_tz("), Ident(tableAlias), Raw("."), Ident(column), Raw(", ")];
    var sep, tail := [Raw(", ")], [Raw("))")];
    ParamsOfParameterFree(head);
    ParamsOfParameterFree(sep);
    ParamsOfParameterFree(tail);
    ParamsBetween(head, format, sep, tz, tail);
  }

  /** The shape of the call is determined by the shapes of its format and time-zone fragments. */
  lemma DateFormatCallShape(tableAlias: string, column: string, format1: Fragment, tz1: Fragment, format2: Fragment, tz2: Fragment)
    requires Shape(format1) == Shape(format2) && Shape(tz1) == Shape(tz2)
    ensures Shape(DateFormatCall(tableAlias, column, format1, tz1)) == Shape(DateFormatCall(tableAlias, column, format2, tz2))
  {
    var head := [Raw("(public.date_format_tz("), Ident(tableAlias), Raw("."), Ident(column), Raw(", ")];
    var sep, tail := [Raw(", ")], [Raw("))")];
    ShapeAppend5(head, format1, sep, tz1, tail);
    ShapeAppend5(head, format2, sep, tz2, tail);
  }

  /** Every node of the call is one of its own fixed pieces or a node of the format or time-zone fragment. */
  lemma DateFormatCallNodes(tableAlias: string, column: string, format: Fragment, tz: Fragment)
    ensures forall n :: n in DateFormatCall(tableAlias, column, format, tz) ==>
      n in format || n in tz || n == Ident(tableAlias) || n == Ident(column) || (n.Raw? && n.text in FixedText)
  {
  }

  /**
   * The expression binds exactly the effective format and, when the caller
   * gave one, the timezone, in that order.
   */
  lemma SelectedExpressionBindings(field: DerivedField, fragment: ResolveFragment, tableAlias: string)
    ensures Params(SelectedValue(Generate(field, fragment), tableAlias).expression)
         == [EffectiveFormat(fragment.args.format, field.defaultFormat)]
            + (if Given(fragment.args.tz) then [fragment.args.tz.value] else [])
  {
    var g := Generate(field, fragment);
    DateFormatCallParams(tableAlias, g.column, g.format, g.tz);
  }

  /**
   * The fixed text of the expression is drawn from `FixedText` whatever the
   * arguments, and its only identifiers are the table alias and the column.
   */
  lemma SelectedExpressionFixedText(field: DerivedField, fragment: ResolveFragment, tableAlias: string)
    ensures var e := SelectedValue(Generate(field, fragment), tableAlias).expression;
      && (forall n :: n in e && n.Raw? ==> n.text in FixedText)
      && (forall n :: n in e && n.Ident? ==> n.name == tableAlias || n.name == field.attr.name)
  {
    var g := Generate(field, fragment);
    DateFormatCallNodes(tableAlias, g.column, g.format, g.tz);
  }

  /** The shape of the expression: the caller's strings never reach it, only whether a timezone was given. */
  lemma ShapeIgnoresArgumentValues(f1: DerivedField, f2: DerivedField, a1: ResolveFragment, a2: ResolveFragment, tableAlias: string)
    requires f1.attr.name == f2.attr.name
    requires Given(a1.args.tz) == Given(a2.args.tz)
    ensures Shape(SelectedValue(Generate(f1, a1), tableAlias).expression)
         == Shape(SelectedValue(Generate(f2, a2), tableAlias).expression)
  {
    var g1, g2 := Generate(f1, a1), Generate(f2, a2);
    assert Shape(g1.format) == [Param("")] == Shape(g2.format);
    assert Shape(g1.tz) == Shape(g2.tz);
    DateFormatCallShape(tableAlias, g1.column, g1.format, g1.tz, g2.format, g2.tz);
  }

  /**
   * Injection safety: the SQL text sent to the database is the same for any
   * `format` and `tz` strings and any default format (given only whether a
   * timezone was supplied); those strings travel only as bound values.
   */
  lemma QueryTextIndependentOfArguments(f1: DerivedField, f2: DerivedField, a1: ResolveFragment, a2: ResolveFragment, tableAlias: string)
    requires f1.attr.name == f2.attr.name
    requires Given(a1.args.tz) == Given(a2.args.tz)
    ensures Compile(SelectedValue(Generate(f1, a1), tableAlias).expression).text
         == Compile(SelectedValue(Generate(f2, a2), tableAlias).expression).text
    ensures Compile(SelectedValue(Generate(f1, a1), tableAlias).expression).values
         == [EffectiveFormat(a1.args.format, f1.defaultFormat)] + (if Given(a1.args.tz) then [a1.args.tz.value] else [])
  {
    ShapeIgnoresArgumentValues(f1, f2, a1, a2, tableAlias);
    CompiledTextDependsOnShapeOnly(SelectedValue(Generate(f1, a1), tableAlias).expression,
                                   SelectedValue(Generate(f2, a2), tableAlias).expression, 1);
    SelectedExpressionBindings(f1, a1, tableAlias);
  }

  /** Without arguments the expression binds only the default format and reads the session's time zone. */
  lemma NoArgumentsUseDefaults(field: DerivedField, alias: string, tableAlias: string)
    ensures var e := SelectedValue(Generate(field, ResolveFragment(alias, FieldArgs(None, None))), tableAlias).expression;
      Params(e) == [field.defaultFormat] && Raw(CurrentTimeZone) in e
  {
    var fragment := ResolveFragment(alias, FieldArgs(None, None));
    SelectedExpressionBindings(field, fragment, tableAlias);
    var e := SelectedValue(Generate(field, fragment), tableAlias).expression;
    assert e[|e| - 2] == Raw(CurrentTimeZone);
  }

  /** An empty string counts as absent: it binds nothing of its own and falls back like a missing argument. */
  lemma EmptyArgumentsCountAsAbsent(field: DerivedField, alias: string)
    ensures Generate(field, ResolveFragment(alias, FieldArgs(Some(""), Some(""))))
         == Generate(field, ResolveFragment(alias, FieldArgs(None, None)))
  {
  }

  /** The resolver reads the cell `pgQuery` selected: the safe alias of the same response alias. */
  lemma ResolveReadsSelectedAlias(host: Services, field: DerivedField, fragment: ResolveFragment, data: Row, v: PgValue)
    requires host.safeAlias(Generate(field, fragment).alias) in data
    requires data[host.safeAlias(Generate(field, fragment).alias)] == v
    ensures Resolve(host, field, data, ResolveInfo(fragment.alias)) == host.pg2gql(field.attr.typ)(Some(v))
  {
  }

  /** The resolver depends on no other cell of the row. */
  lemma ResolveReadsOneCell(host: Services, field: DerivedField, d1: Row, d2: Row, info: ResolveInfo)
    requires Cell(d1, host.safeAlias(info.alias)) == Cell(d2, host.safeAlias(info.alias))
    ensures Resolve(host, field, d1, info) == Resolve(host, field, d2, info)
  {
  }
}
