/**
 * Concrete cases: an `orders` table with a primary key `id`, a not-null
 * `created_at timestamptz` column, and, in the second case, a `timestamptz`
 * column that is also part of the primary key.
 */
module Scenarios {
  import opened Wrappers
  import opened Catalog
  import opened Sql
  import opened Host
  import opened PluginOptions
  import opened FieldSynthesis
  import opened DataGeneration

  function Timestamptz(): PgType { PgType("timestamptz", false) }

  function CreatedAt(): Attribute { Attribute(2, "created_at", Timestamptz(), None, true, map[]) }

  function Id(typ: PgType): Attribute { Attribute(1, "id", typ, None, true, map[]) }

  function Orders(id: Attribute): PgEntity
  {
    PgEntity("class", [id, CreatedAt()], Some(Constraint("p", [1])), [Constraint("p", [1])])
  }

  /** Every column visible and readable; columns inflected to camel case. */
  function OrdersHost(): Services
  {
    Services(
      a => true,
      (a, mode) => false,
      (a: Attribute) => if a.name == "created_at" then "createdAt" else a.name,
      alias => "@" + alias,
      (t: PgType) => (v: Option<PgValue>) => if v.Some? && v.value.PgText? then GqlString(v.value.text) else GqlNull)
  }

  lemma CreatedAtName()
    ensures DerivedName(DefaultOptions(), OrdersHost(), CreatedAt()) == "createdAtFormatted"
  {
    assert OrdersHost().inflectColumn(CreatedAt()) == "createdAt";
    assert DefaultNameFn("createdAt") == "createdAt" + "Formatted" == "createdAtFormatted";
  }

  /** `orders` yields exactly `createdAtFormatted`, a non-null `String` with `format` and `tz` arguments. */
  lemma OrdersGetCreatedAtFormatted()
    ensures var r := ExtendFields(DefaultOptions(), OrdersHost(), Scope(true, false, Some(Orders(Id(PgType("int4", false))))), map[]);
      && r.Success?
      && r.value.Keys == {"createdAtFormatted"}
      && r.value["createdAtFormatted"].typ == NonNull(GraphQLString)
      && r.value["createdAtFormatted"].args == [ArgDecl("format", GraphQLString), ArgDecl("tz", GraphQLString)]
  {
    var opts, host, table := DefaultOptions(), OrdersHost(), Orders(Id(PgType("int4", false)));
    var scope := Scope(true, false, Some(table));
    assert !Eligible(host, table, table.attributes[0]);
    assert Eligible(host, table, table.attributes[1]) by {
      assert !InForeignKey(table, 2);
    }
    assert EligibleOf(host, table, table.attributes) == [CreatedAt()] by {
      assert table.attributes == [table.attributes[0]] + [CreatedAt()];
      assert table.attributes[1..] == [CreatedAt()];
    }
    var names := DerivedNames(opts, host, table, table.attributes);
    CreatedAtName();
    assert names == ["createdAtFormatted"];
    assert NameSet(names) == {"createdAtFormatted"};
    ExtendFieldsFailsIffConflict(opts, host, scope, map[]);
    ExtendFieldsKeys(opts, host, scope, map[]);
    ExtendFieldsAddsEligible(opts, host, scope, map[]);
  }

  /** A `timestamptz` column in the primary key gets no derived field. */
  lemma PrimaryKeyTimestampGetsNoField()
    ensures var id := Id(Timestamptz());
      var r := ExtendFields(DefaultOptions(), OrdersHost(), Scope(true, false, Some(Orders(id))), map[]);
      && r.Success?
      && "idFormatted" !in r.value
      && forall k :: k in r.value ==> r.value[k].attr != id
  {
    var opts, host, id := DefaultOptions(), OrdersHost(), Id(Timestamptz());
    var table := Orders(id);
    var scope := Scope(true, false, Some(table));
    assert !Eligible(host, table, id);
    assert Eligible(host, table, CreatedAt()) by {
      assert !InForeignKey(table, 2);
    }
    assert EligibleOf(host, table, table.attributes) == [CreatedAt()] by {
      assert table.attributes[1..] == [CreatedAt()];
    }
    CreatedAtName();
    assert DerivedNames(opts, host, table, table.attributes) == ["createdAtFormatted"];
    assert NameSet(DerivedNames(opts, host, table, table.attributes)) == {"createdAtFormatted"};
    ExtendFieldsFailsIffConflict(opts, host, scope, map[]);
    ExtendFieldsKeys(opts, host, scope, map[]);
    ExtendFieldsAddsEligible(opts, host, scope, map[]);
  }

  /** `createdAtFormatted(format: "YYYY", tz: "UTC")` binds both strings and no others. */
  lemma ExplicitArgumentsAreBound(tableAlias: string)
    ensures var field := MakeField(DefaultOptions(), OrdersHost(), CreatedAt());
      var fragment := ResolveFragment("createdAtFormatted", FieldArgs(Some("YYYY"), Some("UTC")));
      Compile(SelectedValue(Generate(field, fragment), tableAlias).expression).values == ["YYYY", "UTC"]
  {
    var field := MakeField(DefaultOptions(), OrdersHost(), CreatedAt());
    var fragment := ResolveFragment("createdAtFormatted", FieldArgs(Some("YYYY"), Some("UTC")));
    QueryTextIndependentOfArguments(field, field, fragment, fragment, tableAlias);
  }

  /**
   * One query selecting `createdAtFormatted` through a fresh query builder:
   * the select list holds one entry, under the safe alias the resolver reads,
   * binding the caller's strings as values.
   */
  method SelectCreatedAtFormatted(tableAlias: string, args: FieldArgs, data: Row) returns (sel: Selection, result: GqlValue)
    ensures sel.alias == OrdersHost().safeAlias("createdAtFormatted")
    ensures Compile(sel.value.expression).values
         == [EffectiveFormat(args.format, IsoFormat)] + (if Given(args.tz) then [args.tz.value] else [])
    ensures sel.alias in data ==> result == OrdersHost().pg2gql(Timestamptz())(Some(data[sel.alias]))
  {
    var host := OrdersHost();
    var field := MakeField(DefaultOptions(), host, CreatedAt());
    var fragment := ResolveFragment("createdAtFormatted", args);
    var queryBuilder := new QueryBuilder(tableAlias);
    var generated := Generate(field, fragment);
    PgQuery(host, generated, queryBuilder);
    sel := queryBuilder.selections[0];
    QueryTextIndependentOfArguments(field, field, fragment, fragment, tableAlias);
    result := Resolve(host, field, data, ResolveInfo("createdAtFormatted"));
  }
}
