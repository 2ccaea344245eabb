/**
 * SQL fragments as the plugin builds them with the host's SQL tag: fixed text,
 * quoted identifiers and bound parameter values. `Compile` turns a fragment into
 * the query text sent to the database and the list of values bound to its
 * placeholders; it is what "bound parameter" means in the rest of the model.
 */
module Sql {

  /** One node of a fragment: fixed SQL text, an identifier, or a value bound as a parameter. */
  datatype Node = Raw(text: string) | Ident(name: string) | Param(value: string)

  type Fragment = seq<Node>

  /** The query text and the values bound to its placeholders `$1`, `$2`, ... */
  datatype Query = Query(text: string, values: seq<string>)

  /** The values of the parameter nodes of `f`, in order. */
  function Params(f: Fragment): seq<string>
    decreases |f|
  {
    if f == [] then [] else (if f[0].Param? then [f[0].value] else []) + Params(f[1..])
  }

  lemma {:induction false} ParamsAppend(a: Fragment, b: Fragment)
    ensures Params(a + b) == Params(a) + Params(b)
    decreases |a|
  {
    if a == [] {
      assert a + b == b;
    } else {
      assert (a + b)[1..] == a[1..] + b;
      ParamsAppend(a[1..], b);
    }
  }

  lemma ParamsAppend5(a: Fragment, b: Fragment, c: Fragment, d: Fragment, e: Fragment)
    ensures Params(a + b + c + d + e) == Params(a) + Params(b) + Params(c) + Params(d) + Params(e)
  {
    ParamsAppend(a, b);
    ParamsAppend(a + b, c);
    ParamsAppend(a + b + c, d);
    ParamsAppend(a + b + c + d, e);
  }

  /** Parameter-free pieces around two fragments contribute no values. */
  lemma ParamsBetween(a: Fragment, b: Fragment, c: Fragment, d: Fragment, e: Fragment)
    requires Params(a) == [] && Params(c) == [] && Params(e) == []
    ensures Params(a + b + c + d + e) == Params(b) + Params(d)
  {
    ParamsAppend5(a, b, c, d, e);
  }

  lemma {:induction false} ParamsOfParameterFree(f: Fragment)
    requires forall i :: 0 <= i < |f| ==> !f[i].Param?
    ensures Params(f) == []
    decreases |f|
  {
    if f != [] {
      ParamsOfParameterFree(f[1..]);
    }
  }

  /** The node with its parameter value blanked out: what the query text may depend on. */
  function EraseNode(n: Node): Node
  {
    if n.Param? then Param("") else n
  }

  /** The shape of a fragment: every node with its parameter value blanked out. */
  function Shape(f: Fragment): (s: Fragment)
    ensures |s| == |f|
    ensures forall i :: 0 <= i < |f| ==> s[i] == EraseNode(f[i])
  {
    seq(|f|, i requires 0 <= i < |f| => EraseNode(f[i]))
  }

  lemma ShapeAppend(a: Fragment, b: Fragment)
    ensures Shape(a + b) == Shape(a) + Shape(b)
  {
  }

  lemma ShapeAppend5(a: Fragment, b: Fragment, c: Fragment, d: Fragment, e: Fragment)
    ensures Shape(a + b + c + d + e) == Shape(a) + Shape(b) + Shape(c) + Shape(d) + Shape(e)
  {
    ShapeAppend(a, b);
    ShapeAppend(a + b, c);
    ShapeAppend(a + b + c, d);
    ShapeAppend(a + b + c + d, e);
  }

  /** Decimal digits of `n`. */
  function NatToString(n: nat): string
    decreases n
  {
    if n < 10 then ["0123456789"[n]] else NatToString(n / 10) + ["0123456789"[n % 10]]
  }

  /** An identifier between double quotes, with every inner double quote doubled. */
  function QuoteIdent(name: string): string
  {
    "\"" + EscapeQuotes(name) + "\""
  }

  function EscapeQuotes(s: string): string
    decreases |s|
  {
    if s == [] then "" else (if s[0] == '"' then "\"\"" else [s[0]]) + EscapeQuotes(s[1..])
  }

  /** The text one node contributes when the next placeholder is number `n`. */
  function NodeText(node: Node, n: nat): string
  {
    match node
    case Raw(t) => t
    case Ident(name) => QuoteIdent(name)
    case Param(_) => "$" + NatToString(n)
  }

  /** Compiles `f`, numbering its placeholders from `n`: parameter values go to `values`, never into `text`. */
  function CompileFrom(f: Fragment, n: nat): (q: Query)
    ensures q.values == Params(f)
    decreases |f|
  {
    if f == [] then Query("", [])
    else
      var rest := CompileFrom(f[1..], if f[0].Param? then n + 1 else n);
      Query(NodeText(f[0], n) + rest.text, (if f[0].Param? then [f[0].value] else []) + rest.values)
  }

  function Compile(f: Fragment): Query
  {
    CompileFrom(f, 1)
  }

  /** The compiled text of a fragment depends only on its shape, not on the values it binds. */
  lemma {:induction false} CompiledTextDependsOnShapeOnly(f: Fragment, g: Fragment, n: nat)
    requires Shape(f) == Shape(g)
    ensures CompileFrom(f, n).text == CompileFrom(g, n).text
    decreases |f|
  {
    assert |f| == |Shape(f)| == |Shape(g)| == |g|;
    if f != [] {
      assert EraseNode(f[0]) == Shape(f)[0] == Shape(g)[0] == EraseNode(g[0]);
      assert f[0].Param? <==> g[0].Param?;
      assert NodeText(f[0], n) == NodeText(g[0], n);
      var m := if f[0].Param? then n + 1 else n;
      assert Shape(f[1..]) == Shape(g[1..]) by {
        forall i | 0 <= i < |f| - 1
          ensures Shape(f[1..])[i] == Shape(g[1..])[i]
        {
          assert Shape(f[1..])[i] == EraseNode(f[i + 1]) == Shape(f)[i + 1];
          assert Shape(g[1..])[i] == EraseNode(g[i + 1]) == Shape(g)[i + 1];
        }
      }
      CompiledTextDependsOnShapeOnly(f[1..], g[1..], m);
    }
  }
}
