/**
 * What the schema builder hosting the plugin provides: GraphQL output types,
 * the service functions the hook destructures from `build`, the `extend`
 * merge of field maps, and the query builder a data generator selects into.
 * Their code is not part of this model; each is given by the behaviour the
 * plugin relies on.
 */
module Host {
  import opened Wrappers
  import opened Catalog
  import opened Sql

  /** GraphQL output types the plugin uses: `GraphQLString`, possibly wrapped in `GraphQLNonNull`. */
  datatype GqlType = GraphQLString | NonNull(ofType: GqlType)

  /** A cell of a result row as the database driver returns it. */
  datatype PgValue = PgNull | PgText(text: string)

  /** A value handed back to GraphQL by a resolver. */
  datatype GqlValue = GqlNull | GqlString(value: string)

  /** A result row: selected values keyed by their safe alias. */
  type Row = map<string, PgValue>

  /**
   * The host services the hook uses, with `build` and `context` already applied:
   * `pgColumnFilter`, `pgOmit`, `inflection.column`, `getSafeAliasFromAlias`
   * (also behind `getSafeAliasFromResolveInfo`) and `pg2gqlForType`.
   */
  datatype Services = Services(
    columnFilter: Attribute -> bool,
    omit: (Attribute, string) -> bool,
    inflectColumn: Attribute -> string,
    safeAlias: string -> string,
    pg2gql: PgType -> Option<PgValue> -> GqlValue)

  /** The error `extend` throws: the keys both maps define. */
  datatype Conflict = NamingConflict(keys: set<string>)

  /**
   * `extend(base, extra)`: a new map with the entries of both, or a naming
   * conflict when `extra` defines a key that `base` already has.
   */
  function Extend<V>(base: map<string, V>, extra: map<string, V>): (r: Result<map<string, V>, Conflict>)
    ensures r.Success? <==> base.Keys !! extra.Keys
    ensures r.Success? ==> r.value.Keys == base.Keys + extra.Keys
    ensures r.Success? ==> forall k :: k in base ==> r.value[k] == base[k]
    ensures r.Success? ==> forall k :: k in extra ==> r.value[k] == extra[k]
    ensures r.Failure? ==> r.error.keys != {} && r.error.keys == base.Keys * extra.Keys
  {
    if base.Keys !! extra.Keys then Success(base + extra)
    else
      assert base.Keys * extra.Keys != {} by {
        var k :| k in base.Keys && k in extra.Keys;
        assert k in base.Keys * extra.Keys;
      }
      Failure(NamingConflict(base.Keys * extra.Keys))
  }

  /**
   * The arguments the plugin hands to `pgGetSelectValueForFieldAndTypeAndModifier`:
   * the GraphQL return type, the SQL expression, and the column's type and modifier.
   * The host's own rewriting of the expression is not part of this model.
   */
  datatype SelectValue = SelectValue(returnType: GqlType, expression: Fragment, pgType: PgType, typeModifier: Option<int>)

  /** One entry of a query's select list: a value and the alias it is selected under. */
  datatype Selection = Selection(value: SelectValue, alias: string)

  /** The host's query builder for one table: its table alias and the select list built so far. */
  class QueryBuilder {
    const tableAlias: string
    var selections: seq<Selection>

    constructor (tableAlias: string)
      ensures this.tableAlias == tableAlias && selections == []
    {
      this.tableAlias := tableAlias;
      selections := [];
    }

    /** `queryBuilder.select(value, alias)`: appends one selection to the select list. */
    method Select(value: SelectValue, alias: string)
      modifies this
      ensures selections == old(selections) + [Selection(value, alias)]
    {
      selections := selections + [Selection(value, alias)];
    }
  }
}
