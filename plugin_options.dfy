/** The plugin's construction options and their defaults. */
module PluginOptions {

  /** `nameFn` maps a column's inflected name to the derived field's name; `defaultFormat` is used when the caller gives none. */
  datatype Options = Options(nameFn: string -> string, defaultFormat: string)

  const FormattedSuffix: string := "Formatted"

  /** The default format pattern, ISO 8601 with the zone offset. */
  const IsoFormat: string := "YYYY-MM-DD\"T\"HH24:MI:SSOF"

  /** The default `nameFn`: the inflected name followed by `Formatted`. */
  function DefaultNameFn(name: string): (r: string)
    ensures |r| == |name| + |FormattedSuffix|
    ensures r[..|name|] == name && r[|name|..] == FormattedSuffix
  {
    name + FormattedSuffix
  }

  /** Options built with `{}`: both defaults. */
  function DefaultOptions(): (o: Options)
    ensures o.defaultFormat == IsoFormat
    ensures forall name :: o.nameFn(name) == DefaultNameFn(name)
  {
    Options(DefaultNameFn, IsoFormat)
  }

  /** The default namer never makes two distinct inflected names collide. */
  lemma DefaultNameFnInjective(a: string, b: string)
    requires DefaultNameFn(a) == DefaultNameFn(b)
    ensures a == b
  {
    assert |a| == |b|;
    assert a == DefaultNameFn(a)[..|a|] == DefaultNameFn(b)[..|b|] == b;
  }
}
