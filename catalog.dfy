/**
 * The introspected PostgreSQL catalog the plugin reads: a table (class) with its
 * attributes (columns) and constraints, and the scope of the GraphQL object type
 * whose fields are being built.
 */
module Catalog {
  import opened Wrappers

  /** A column's declared type: its name (`timestamptz`, `text`, ...) and whether its domain forbids null. */
  datatype PgType = PgType(name: string, domainIsNotNull: bool)

  /** The value of a smart-comment tag: a bare flag, a string, or a repeated tag. */
  datatype TagValue = Flag | Text(text: string) | List(items: seq<string>)

  /** JavaScript truthiness of a tag value: only the empty string is falsy. */
  predicate TagValueTruthy(v: TagValue)
  {
    match v
    case Flag => true
    case Text(s) => s != ""
    case List(_) => true
  }

  /** `tags[key]` is truthy: the tag is present and its value is not the empty string. */
  predicate TagTruthy(tags: map<string, TagValue>, key: string)
  {
    key in tags && TagValueTruthy(tags[key])
  }

  /** One column of a table: its ordinal, SQL name, type, type modifier, own not-null flag and tags. */
  datatype Attribute = Attribute(
    num: int,
    name: string,
    typ: PgType,
    typeModifier: Option<int>,
    isNotNull: bool,
    tags: map<string, TagValue>)

  /** A table constraint: its kind (`p`, `f`, `u`, `c`, ...) and the ordinals of the columns it covers. */
  datatype Constraint = Constraint(kind: string, keyAttributeNums: seq<int>)

  /** The introspection entity behind a GraphQL type; the attributes and constraints matter only for kind `class`. */
  datatype PgEntity = PgEntity(
    kind: string,
    attributes: seq<Attribute>,
    primaryKeyConstraint: Option<Constraint>,
    constraints: seq<Constraint>)

  /** The scope of the `GraphQLObjectType:fields` hook: the two type flags and the introspection entity, if any. */
  datatype Scope = Scope(isPgRowType: bool, isPgCompoundType: bool, pgIntrospection: Option<PgEntity>)
}
