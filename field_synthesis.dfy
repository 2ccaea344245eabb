/**
 * The `GraphQLObjectType:fields` hook: for a type backed by a table, one
 * derived `...Formatted` field per eligible `timestamptz` column, merged into
 * the fields the type already has.
 */
module FieldSynthesis {
  import opened Wrappers
  import opened Catalog
  import opened Host
  import opened PluginOptions

  /** A declared argument of a derived field. */
  datatype ArgDecl = ArgDecl(name: string, typ: GqlType)

  /**
   * A derived field as registered with `fieldWithHooks`: its name, the column
   * it was made for, its arguments, its declared type, and the default format
   * its data generator falls back to.
   */
  datatype DerivedField = DerivedField(
    name: string,
    attr: Attribute,
    args: seq<ArgDecl>,
    typ: GqlType,
    defaultFormat: string)

  type Fields = map<string, DerivedField>

  /** `nullableIf`: the type itself when the condition holds, otherwise its non-null wrapper. */
  function NullableIf(condition: bool, t: GqlType): (r: GqlType)
    ensures r == t <==> condition
    ensures !condition ==> r.NonNull? && r.ofType == t
  {
    if condition then t else NotOwnWrapper(t); NonNull(t)
  }

  /** No type is its own non-null wrapper. */
  lemma {:induction false} NotOwnWrapper(t: GqlType)
    ensures NonNull(t) != t
  {
    if t.NonNull? {
      NotOwnWrapper(t.ofType);
    }
  }

  /** Some evidence that the column never holds null: its own flag, its domain's, or a `notNull` tag. */
  predicate NotNullSignal(attr: Attribute)
  {
    attr.isNotNull || attr.typ.domainIsNotNull || TagTruthy(attr.tags, "notNull")
  }

  /** The declared type of a derived field: a `String`, non-null exactly when any not-null signal is present. */
  function DeclaredType(attr: Attribute): (t: GqlType)
    ensures t == NonNull(GraphQLString) <==> NotNullSignal(attr)
    ensures t == GraphQLString <==> !NotNullSignal(attr)
  {
    NullableIf(!attr.isNotNull && !attr.typ.domainIsNotNull && !TagTruthy(attr.tags, "notNull"), GraphQLString)
  }

  /** The guard: the type is a row or compound type and is backed by an introspected `class`. */
  predicate Applies(scope: Scope)
    ensures !(scope.isPgRowType || scope.isPgCompoundType) ==> !Applies(scope)
    ensures scope.pgIntrospection.None? ==> !Applies(scope)
    ensures scope.pgIntrospection.Some? && scope.pgIntrospection.value.kind != "class" ==> !Applies(scope)
    ensures Applies(scope) ==> scope.pgIntrospection.Some?
  {
    (scope.isPgRowType || scope.isPgCompoundType)
    && scope.pgIntrospection.Some?
    && scope.pgIntrospection.value.kind == "class"
  }

  predicate InPrimaryKey(table: PgEntity, num: int)
  {
    table.primaryKeyConstraint.Some? && num in table.primaryKeyConstraint.value.keyAttributeNums
  }

  predicate InForeignKey(table: PgEntity, num: int)
  {
    exists c :: c in table.constraints && c.kind == "f" && num in c.keyAttributeNums
  }

  /** A column gets a derived field iff it is visible, readable, a `timestamptz`, and in no primary or foreign key. */
  predicate Eligible(host: Services, table: PgEntity, attr: Attribute)
    ensures Eligible(host, table, attr) ==> host.columnFilter(attr) && !host.omit(attr, "read")
    ensures attr.typ.name != "timestamptz" ==> !Eligible(host, table, attr)
    ensures table.primaryKeyConstraint.Some? && attr.num in table.primaryKeyConstraint.value.keyAttributeNums
      ==> !Eligible(host, table, attr)
    ensures forall c :: c in table.constraints && c.kind == "f" && attr.num in c.keyAttributeNums ==> !Eligible(host, table, attr)
  {
    && host.columnFilter(attr)
    && !host.omit(attr, "read")
    && attr.typ.name == "timestamptz"
    && !InPrimaryKey(table, attr.num)
    && !InForeignKey(table, attr.num)
  }

  /** `constraints.some(c => c.type === 'f' && c.keyAttributeNums.includes(num))`. */
  function SomeForeignKeyIncludes(constraints: seq<Constraint>, num: int): (b: bool)
    ensures b <==> exists c :: c in constraints && c.kind == "f" && num in c.keyAttributeNums
    decreases |constraints|
  {
    if constraints == [] then false
    else if constraints[0].kind == "f" && num in constraints[0].keyAttributeNums then true
    else
      assert forall c :: c in constraints ==> c == constraints[0] || c in constraints[1..];
      SomeForeignKeyIncludes(constraints[1..], num)
  }

  /** The derived field's name: `nameFn(inflection.column(attr))`. */
  function DerivedName(opts: Options, host: Services, attr: Attribute): string
  {
    opts.nameFn(host.inflectColumn(attr))
  }

  /** With the default options a derived name is the inflected column name followed by `Formatted`. */
  lemma DefaultDerivedName(host: Services, attr: Attribute)
    ensures DerivedName(DefaultOptions(), host, attr) == host.inflectColumn(attr) + FormattedSuffix
  {
  }

  /** The arguments every derived field declares: an optional `format` and an optional `tz`. */
  const ArgDecls: seq<ArgDecl> := [ArgDecl("format", GraphQLString), ArgDecl("tz", GraphQLString)]

  /** The field registered for an eligible column. */
  function MakeField(opts: Options, host: Services, attr: Attribute): (f: DerivedField)
    ensures f.name == DerivedName(opts, host, attr) && f.attr == attr
    ensures f.typ.NonNull? <==> NotNullSignal(attr)
    ensures f.defaultFormat == opts.defaultFormat
    ensures f.args == ArgDecls && f.typ == DeclaredType(attr)
  {
    DerivedField(DerivedName(opts, host, attr), attr, ArgDecls, DeclaredType(attr), opts.defaultFormat)
  }

  /** One step of the `reduce`: the early-return filter chain, then `extend(memo, {[name]: field})`. */
  function Step(opts: Options, host: Services, table: PgEntity, memo: Fields, attr: Attribute): (r: Result<Fields, Conflict>)
    ensures r.Failure? <==> Eligible(host, table, attr) && DerivedName(opts, host, attr) in memo
    ensures r.Success? ==> memo.Keys <= r.value.Keys && r.value.Keys - memo.Keys <= {DerivedName(opts, host, attr)}
    ensures r.Success? ==> forall k :: k in memo ==> r.value[k] == memo[k]
  {
    if !host.columnFilter(attr) then Success(memo)
    else if host.omit(attr, "read") then Success(memo)
    else if attr.typ.name != "timestamptz" then Success(memo)
    else if table.primaryKeyConstraint.Some? && attr.num in table.primaryKeyConstraint.value.keyAttributeNums then Success(memo)
    else if SomeForeignKeyIncludes(table.constraints, attr.num) then Success(memo)
    else
      var name := DerivedName(opts, host, attr);
      Extend(memo, map[name := MakeField(opts, host, attr)])
  }

  /** The filter chain of `Step` keeps exactly the eligible columns, and adds the column's field under its name. */
  lemma StepFiltersEligible(opts: Options, host: Services, table: PgEntity, memo: Fields, attr: Attribute)
    ensures !Eligible(host, table, attr) ==> Step(opts, host, table, memo, attr) == Success(memo)
    ensures Eligible(host, table, attr) ==>
      Step(opts, host, table, memo, attr) == Extend(memo, map[DerivedName(opts, host, attr) := MakeField(opts, host, attr)])
  {
  }

  /** `table.attributes.reduce(step, memo)`; an `extend` that throws ends the fold. */
  function Collect(opts: Options, host: Services, table: PgEntity, attrs: seq<Attribute>, memo: Fields): (r: Result<Fields, Conflict>)
    ensures (forall a :: a in attrs ==> !Eligible(host, table, a)) ==> r == Success(memo)
    decreases |attrs|
  {
    if attrs == [] then Success(memo)
    else
      var next := Step(opts, host, table, memo, attrs[0]);
      StepFiltersEligible(opts, host, table, memo, attrs[0]);
      if next.Failure? then next else Collect(opts, host, table, attrs[1..], next.value)
  }

  /**
   * The hook: the incoming fields unchanged when the guard fails; otherwise
   * the derived fields, built from an empty map, merged into them.
   */
  function ExtendFields(opts: Options, host: Services, scope: Scope, fields: Fields): (r: Result<Fields, Conflict>)
    ensures !Applies(scope) ==> r == Success(fields)
    ensures r.Success? ==> fields.Keys <= r.value.Keys && forall k :: k in fields ==> r.value[k] == fields[k]
  {
    if !Applies(scope) then Success(fields)
    else
      var table := scope.pgIntrospection.value;
      var derived := Collect(opts, host, table, table.attributes, map[]);
      if derived.Failure? then derived else Extend(fields, derived.value)
  }

  // ---------------------------------------------------------------------------
  // Reference definitions: which columns qualify and what they are named.

  /** The eligible columns of `attrs`, in order. */
  function EligibleOf(host: Services, table: PgEntity, attrs: seq<Attribute>): seq<Attribute>
    decreases |attrs|
  {
    if attrs == [] then []
    else (if Eligible(host, table, attrs[0]) then [attrs[0]] else []) + EligibleOf(host, table, attrs[1..])
  }

  /** The filtered list holds exactly the eligible columns of `attrs`, and is no longer. */
  lemma {:induction false} EligibleOfMembers(host: Services, table: PgEntity, attrs: seq<Attribute>)
    ensures forall a :: a in EligibleOf(host, table, attrs) <==> a in attrs && Eligible(host, table, a)
    ensures |EligibleOf(host, table, attrs)| <= |attrs|
    decreases |attrs|
  {
    if attrs != [] {
      EligibleOfMembers(host, table, attrs[1..]);
      assert forall a :: a in attrs <==> a == attrs[0] || a in attrs[1..];
    }
  }

  /** The derived names of `attrs`, in order. */
  function NamesOf(opts: Options, host: Services, attrs: seq<Attribute>): (r: seq<string>)
    ensures |r| == |attrs|
    decreases |attrs|
  {
    if attrs == [] then [] else [DerivedName(opts, host, attrs[0])] + NamesOf(opts, host, attrs[1..])
  }

  /** The i-th derived name is the derived name of the i-th column. */
  lemma {:induction false} NamesOfAt(opts: Options, host: Services, attrs: seq<Attribute>, i: nat)
    requires i < |attrs|
    ensures NamesOf(opts, host, attrs)[i] == DerivedName(opts, host, attrs[i])
    decreases i
  {
    if i > 0 {
      NamesOfAt(opts, host, attrs[1..], i - 1);
    }
  }

  /** The names of the fields the table's attributes give rise to. */
  function DerivedNames(opts: Options, host: Services, table: PgEntity, attrs: seq<Attribute>): seq<string>
  {
    NamesOf(opts, host, EligibleOf(host, table, attrs))
  }

  function NameSet(names: seq<string>): set<string>
  {
    set n | n in names
  }

  predicate Distinct(names: seq<string>)
  {
    forall i, j :: 0 <= i < j < |names| ==> names[i] != names[j]
  }

  /** Adding `names` one by one to a map with `keys` never meets a key twice. */
  predicate NoConflict(keys: set<string>, names: seq<string>)
  {
    Distinct(names) && keys !! NameSet(names)
  }

  lemma NoConflictCons(keys: set<string>, n: string, rest: seq<string>)
    ensures NoConflict(keys, [n] + rest) <==> n !in keys && NoConflict(keys + {n}, rest)
  {
    var s := [n] + rest;
    assert NameSet(s) == {n} + NameSet(rest);
    assert Distinct(s) <==> n !in rest && Distinct(rest) by {
      if Distinct(s) {
        forall i, j | 0 <= i < j < |rest| ensures rest[i] != rest[j] {
          assert rest[i] == s[i + 1] && rest[j] == s[j + 1];
        }
        forall i | 0 <= i < |rest| ensures rest[i] != n {
          assert rest[i] == s[i + 1] && n == s[0];
        }
      }
      if n !in rest && Distinct(rest) {
        forall i, j | 0 <= i < j < |s| ensures s[i] != s[j] {
          if i == 0 {
            assert s[j] == rest[j - 1];
          } else {
            assert s[i] == rest[i - 1] && s[j] == rest[j - 1];
          }
        }
      }
    }
  }

  lemma {:induction false} DistinctCard(names: seq<string>)
    requires Distinct(names)
    ensures |NameSet(names)| == |names|
    decreases |names|
  {
    if names != [] {
      var rest := names[1..];
      assert names == [names[0]] + rest;
      NoConflictCons({}, names[0], rest);
      assert NoConflict({}, names);
      DistinctCard(rest);
      assert NameSet(names) == {names[0]} + NameSet(rest);
      assert names[0] !in NameSet(rest);
    }
  }

  /** One step of the fold on a column: skipped, a conflict, or the column's field added before the rest. */
  lemma CollectUnfold(opts: Options, host: Services, table: PgEntity, attrs: seq<Attribute>, memo: Fields)
    requires attrs != []
    ensures var a, rest := attrs[0], attrs[1..];
      var n := DerivedName(opts, host, a);
      && DerivedNames(opts, host, table, attrs)
         == (if Eligible(host, table, a) then [n] else []) + DerivedNames(opts, host, table, rest)
      && Collect(opts, host, table, attrs, memo)
         == if !Eligible(host, table, a) then Collect(opts, host, table, rest, memo)
            else if n in memo then Failure(NamingConflict({n}))
            else Collect(opts, host, table, rest, memo[n := MakeField(opts, host, a)])
  {
    var a, rest := attrs[0], attrs[1..];
    StepFiltersEligible(opts, host, table, memo, a);
    if Eligible(host, table, a) {
      var n := DerivedName(opts, host, a);
      assert EligibleOf(host, table, attrs) == [a] + EligibleOf(host, table, rest);
      var m := map[n := MakeField(opts, host, a)];
      assert memo.Keys * m.Keys == if n in memo then {n} else {};
      if n !in memo {
        assert memo + m == memo[n := MakeField(opts, host, a)];
      }
    } else {
      assert EligibleOf(host, table, attrs) == EligibleOf(host, table, rest);
    }
  }

  /** The fold, from any starting map, throws iff some derived name is met twice or is already in the map. */
  lemma {:induction false} CollectSucceedsIff(opts: Options, host: Services, table: PgEntity, attrs: seq<Attribute>, memo: Fields)
    ensures Collect(opts, host, table, attrs, memo).Success? <==> NoConflict(memo.Keys, DerivedNames(opts, host, table, attrs))
    decreases |attrs|
  {
    if attrs == [] {
      assert DerivedNames(opts, host, table, attrs) == [];
      assert NameSet([]) == {};
    } else {
      var a, rest := attrs[0], attrs[1..];
      var n := DerivedName(opts, host, a);
      CollectUnfold(opts, host, table, attrs, memo);
      if !Eligible(host, table, a) {
        assert DerivedNames(opts, host, table, attrs) == DerivedNames(opts, host, table, rest);
        CollectSucceedsIff(opts, host, table, rest, memo);
      } else {
        NoConflictCons(memo.Keys, n, DerivedNames(opts, host, table, rest));
        if n !in memo {
          var memo' := memo[n := MakeField(opts, host, a)];
          assert memo'.Keys == memo.Keys + {n};
          CollectSucceedsIff(opts, host, table, rest, memo');
        }
      }
    }
  }

  /** A fold that succeeds keeps every entry it started from and adds exactly the derived names. */
  lemma {:induction false} CollectKeys(opts: Options, host: Services, table: PgEntity, attrs: seq<Attribute>, memo: Fields)
    requires Collect(opts, host, table, attrs, memo).Success?
    ensures var r := Collect(opts, host, table, attrs, memo).value;
      && r.Keys == memo.Keys + NameSet(DerivedNames(opts, host, table, attrs))
      && (forall k :: k in memo ==> r[k] == memo[k])
    decreases |attrs|
  {
    if attrs == [] {
      assert DerivedNames(opts, host, table, attrs) == [];
      assert NameSet([]) == {};
    } else {
      var a, rest := attrs[0], attrs[1..];
      var n := DerivedName(opts, host, a);
      CollectUnfold(opts, host, table, attrs, memo);
      if !Eligible(host, table, a) {
        assert DerivedNames(opts, host, table, attrs) == DerivedNames(opts, host, table, rest);
        CollectKeys(opts, host, table, rest, memo);
      } else {
        var memo' := memo[n := MakeField(opts, host, a)];
        assert NameSet(DerivedNames(opts, host, table, attrs)) == {n} + NameSet(DerivedNames(opts, host, table, rest));
        CollectKeys(opts, host, table, rest, memo');
        assert n !in memo && memo'.Keys == memo.Keys + {n};
        var r := Collect(opts, host, table, attrs, memo).value;
        forall k | k in memo ensures r[k] == memo[k] {
          assert memo'[k] == memo[k];
        }
      }
    }
  }

  /**
   * A fold that succeeds holds, under each eligible column's derived name,
   * that column's field; every entry it adds is the field of an eligible column.
   */
  lemma {:induction false} CollectAddsEligible(opts: Options, host: Services, table: PgEntity, attrs: seq<Attribute>, memo: Fields)
    requires Collect(opts, host, table, attrs, memo).Success?
    ensures var r := Collect(opts, host, table, attrs, memo).value;
      && (forall a :: a in attrs && Eligible(host, table, a) ==>
            DerivedName(opts, host, a) in r && r[DerivedName(opts, host, a)] == MakeField(opts, host, a))
      && (forall k :: k in r && k !in memo ==>
            r[k].attr in attrs && Eligible(host, table, r[k].attr) && r[k] == MakeField(opts, host, r[k].attr))
    decreases |attrs|
  {
    if attrs != [] {
      var a, rest := attrs[0], attrs[1..];
      assert attrs == [a] + rest;
      var n := DerivedName(opts, host, a);
      CollectUnfold(opts, host, table, attrs, memo);
      var r := Collect(opts, host, table, attrs, memo).value;
      if !Eligible(host, table, a) {
        CollectAddsEligible(opts, host, table, rest, memo);
        assert forall a' :: a' in attrs && Eligible(host, table, a') ==> a' in rest;
      } else {
        var f := MakeField(opts, host, a);
        var memo' := memo[n := f];
        CollectAddsEligible(opts, host, table, rest, memo');
        CollectKeys(opts, host, table, rest, memo');
        assert n !in memo && r[n] == f;
        forall a' | a' in attrs && Eligible(host, table, a')
          ensures DerivedName(opts, host, a') in r && r[DerivedName(opts, host, a')] == MakeField(opts, host, a')
        {
          if a' != a {
            assert a' in rest;
          }
        }
        forall k | k in r && k !in memo
          ensures r[k].attr in attrs && Eligible(host, table, r[k].attr) && r[k] == MakeField(opts, host, r[k].attr)
        {
          if k != n {
            assert k !in memo';
          }
        }
      }
    }
  }

  // ---------------------------------------------------------------------------
  // The hook's result, for a type the guard admits.

  /** The hook throws iff two eligible columns share a derived name or one collides with an existing field. */
  lemma ExtendFieldsFailsIffConflict(opts: Options, host: Services, scope: Scope, fields: Fields)
    requires Applies(scope)
    ensures var table := scope.pgIntrospection.value;
      var names := DerivedNames(opts, host, table, table.attributes);
      ExtendFields(opts, host, scope, fields).Success? <==> Distinct(names) && fields.Keys !! NameSet(names)
  {
    var table := scope.pgIntrospection.value;
    CollectSucceedsIff(opts, host, table, table.attributes, map[]);
    var derived := Collect(opts, host, table, table.attributes, map[]);
    if derived.Success? {
      CollectKeys(opts, host, table, table.attributes, map[]);
    }
  }

  /** Merging a map keyed by distinct names into `fields`: one more key per name, the rest from `m`. */
  lemma MergeDistinctNames(fields: Fields, m: Fields, names: seq<string>)
    requires Extend(fields, m).Success?
    requires m.Keys == NameSet(names) && Distinct(names)
    ensures var r := Extend(fields, m).value;
      && r.Keys == fields.Keys + NameSet(names)
      && |r| == |fields| + |names|
      && forall k :: k in r && k !in fields ==> k in m && r[k] == m[k]
  {
    var r := Extend(fields, m).value;
    DistinctCard(names);
    assert fields.Keys * m.Keys == {};
    assert |r.Keys| == |fields.Keys| + |m.Keys|;
  }

  /** On success the hook's keys are the old keys plus the derived names, one new key per eligible column. */
  lemma ExtendFieldsKeys(opts: Options, host: Services, scope: Scope, fields: Fields)
    requires Applies(scope)
    ensures var table := scope.pgIntrospection.value;
      var r := ExtendFields(opts, host, scope, fields);
      r.Success? ==>
        && r.value.Keys == fields.Keys + NameSet(DerivedNames(opts, host, table, table.attributes))
        && |r.value| == |fields| + |EligibleOf(host, table, table.attributes)|
  {
    var table := scope.pgIntrospection.value;
    var names := DerivedNames(opts, host, table, table.attributes);
    var derived := Collect(opts, host, table, table.attributes, map[]);
    if ExtendFields(opts, host, scope, fields).Success? {
      CollectSucceedsIff(opts, host, table, table.attributes, map[]);
      CollectKeys(opts, host, table, table.attributes, map[]);
      MergeDistinctNames(fields, derived.value, names);
    }
  }

  /**
   * On success every eligible column has its field under its derived name,
   * and every new entry is the field of an eligible column of the table.
   */
  lemma ExtendFieldsAddsEligible(opts: Options, host: Services, scope: Scope, fields: Fields)
    requires Applies(scope)
    ensures var table := scope.pgIntrospection.value;
      var r := ExtendFields(opts, host, scope, fields);
      r.Success? ==>
        && (forall a :: a in table.attributes && Eligible(host, table, a) ==>
              DerivedName(opts, host, a) in r.value && r.value[DerivedName(opts, host, a)] == MakeField(opts, host, a))
        && (forall k :: k in r.value && k !in fields ==>
              r.value[k].attr in table.attributes && Eligible(host, table, r.value[k].attr)
              && r.value[k] == MakeField(opts, host, r.value[k].attr))
  {
    var table := scope.pgIntrospection.value;
    var derived := Collect(opts, host, table, table.attributes, map[]);
    var r := ExtendFields(opts, host, scope, fields);
    if r.Success? {
      assert derived.Success? && r == Extend(fields, derived.value);
      var m, out := derived.value, r.value;
      CollectAddsEligible(opts, host, table, table.attributes, map[]);
      forall a | a in table.attributes && Eligible(host, table, a)
        ensures DerivedName(opts, host, a) in out && out[DerivedName(opts, host, a)] == MakeField(opts, host, a)
      {
        assert DerivedName(opts, host, a) in m;
      }
      forall k | k in out && k !in fields
        ensures out[k].attr in table.attributes && Eligible(host, table, out[k].attr)
        ensures out[k] == MakeField(opts, host, out[k].attr)
      {
        assert k in m && out[k] == m[k];
      }
    }
  }

  /**
   * Constraints of a kind other than `f` never exclude a column: two constraint
   * lists with the same foreign-key constraints, in whatever order and with
   * whatever other constraints among them, give every column the same eligibility.
   */
  lemma NonForeignConstraintsNeverExclude(host: Services, table: PgEntity, cs: seq<Constraint>, attr: Attribute)
    requires forall c: Constraint :: c.kind == "f" ==> (c in cs <==> c in table.constraints)
    ensures Eligible(host, table.(constraints := cs), attr) <==> Eligible(host, table, attr)
  {
  }

  /** Without a primary-key constraint, eligibility is decided by the other four conditions alone. */
  lemma MissingPrimaryKeyExcludesNothing(host: Services, table: PgEntity, attr: Attribute)
    requires table.primaryKeyConstraint.None?
    ensures Eligible(host, table, attr) <==>
      host.columnFilter(attr) && !host.omit(attr, "read") && attr.typ.name == "timestamptz"
      && !InForeignKey(table, attr.num)
  {
  }
}
