/**
  `QueryParser.parse` of sift.js: a query value becomes a statement tree.
  `Compile` and its helpers say what `parse` returns; `Parse`, `ParseField` and
  `ConvertDot` are the source's loops, each proved to compute exactly that.
*/
module SiftParse {
  import opened JsValue
  import opened SiftTree

  // ---------------------------------------------------------------------------
  // A measure for termination: dotted keys are unfolded into nested objects, so
  // the measure counts key characters as well as nesting.

  function QuerySize(v: Value): nat {
    match v
    case Obj(_, fs) => 1 + FieldsSize(fs)
    case Arr(_, es) => 1 + ListSize(es)
    case _ => 1
  }

  function FieldsSize(fs: seq<Field>): nat {
    if |fs| == 0 then 0 else FieldSize(fs[0]) + FieldsSize(fs[1..])
  }

  function FieldSize(f: Field): nat {
    1 + 2 * |f.key| + QuerySize(f.val)
  }

  function ListSize(es: seq<Value>): nat {
    if |es| == 0 then 0 else ListSize(es[..|es| - 1]) + QuerySize(es[|es| - 1])
  }

  lemma {:induction false} FieldSizeBound(fs: seq<Field>, i: nat)
    requires i < |fs|
    ensures FieldSize(fs[i]) <= FieldsSize(fs)
  {
    if i > 0 {
      FieldSizeBound(fs[1..], i - 1);
    }
  }

  lemma {:induction false} ListSizeBound(es: seq<Value>, i: nat)
    requires i < |es|
    ensures QuerySize(es[i]) <= ListSize(es)
  {
    if i < |es| - 1 {
      ListSizeBound(es[..|es| - 1], i);
    }
  }

  // ---------------------------------------------------------------------------
  // Dotted keys

  /** `_convertDotToSubObject(parts, v)`: single-key objects nested along
      `parts`, with `v` under the last one. `parse` always passes at least one
      part (the key held a dot). */
  function Nest(parts: seq<string>, v: Value): Value
    requires |parts| >= 1
  {
    if |parts| == 1 then Obj(Fresh, [Field(parts[0], v)])
    else Obj(Fresh, [Field(parts[0], Nest(parts[1..], v))])
  }

  lemma {:induction false} NestSize(parts: seq<string>, v: Value)
    requires |parts| >= 1
    ensures QuerySize(Nest(parts, v)) == 2 * |Join(parts)| + 2 + QuerySize(v)
  {
    var f := Field(parts[0], if |parts| == 1 then v else Nest(parts[1..], v));
    assert Nest(parts, v).fields == [f];
    assert FieldsSize([f]) == FieldSize(f) by {
      assert [f][1..] == [];
    }
    if |parts| > 1 {
      NestSize(parts[1..], v);
    }
  }

  /** The field a traversable key is compiled as: `"a.b.c": v` becomes
      `"a": {b: {c: v}}`; a key without a dot is kept. */
  function Rewrite(f: Field): (g: Field)
    ensures QuerySize(g.val) < FieldSize(f)
    ensures '.' !in g.key
  {
    var parts := Split(f.key);
    if |parts| > 1 then
      JoinSplit(f.key);
      NestSize(parts[1..], f.val);
      Field(parts[0], Nest(parts[1..], f.val))
    else f
  }

  /** The loop of `_convertDotToSubObject`, building the objects from the
      innermost one out. */
  method ConvertDot(parts: seq<string>, v: Value) returns (r: Value)
    requires |parts| >= 1
    ensures r == Nest(parts, v)
  {
    var i := |parts| - 1;
    r := Obj(Fresh, [Field(parts[i], v)]);
    while i > 0
      invariant 0 <= i < |parts|
      invariant r == Nest(parts[i..], v)
    {
      i := i - 1;
      assert parts[i..][1..] == parts[i + 1..];
      r := Obj(Fresh, [Field(parts[i], r)]);
    }
    assert parts[0..] == parts;
  }

  // ---------------------------------------------------------------------------
  // What `parse` returns

  predicate StartsWithDollar(k: string) {
    |k| > 0 && k[0] == '$'
  }

  /** The operator a key resolves to: the key itself when the table has it,
      `$trav` for a property name, and an "Unknown operator" error otherwise. */
  function ResolveOperator(reg: Registry, k: string): (r: Result<string>)
    requires Valid(reg)
    ensures r.Ok? ==> TesterOf(reg, r.value).Some?
    ensures TesterOf(reg, k).Some? ==> r == Ok(k)
    ensures TesterOf(reg, k).None? && !StartsWithDollar(k) ==> r == Ok("$trav")
    ensures TesterOf(reg, k).None? && StartsWithDollar(k) ==> r == Throws(UnknownOperator(k))
  {
    if TesterOf(reg, k).Some? then Ok(k)
    else if !StartsWithDollar(k) then FallbacksPresent(reg); Ok("$trav")
    else Throws(UnknownOperator(k))
  }

  /** `parse(q, key)`. A falsy query is read as `{$eq: q}`; since `$eq` is
      never traversable that object's one key compiles to a literal. */
  function Compile(reg: Registry, q: Value, key: Option<string>): Result<Stmt>
    requires Valid(reg)
    decreases QuerySize(q), 2
  {
    if !Truthy(q) then Ok(Stmt([LiteralExpr(reg, "$eq", Some("$eq"), q)], key))
    else if q.Obj? then
      var es :- CompileFields(reg, q.fields);
      Ok(Stmt(es, key))
    else Ok(Stmt([LiteralExpr(reg, "$eq", key, q)], key))
  }

  /** The `for (var k in statement)` loop: one expression per key, in order. */
  function CompileFields(reg: Registry, fs: seq<Field>): Result<seq<Expr>>
    requires Valid(reg)
    decreases FieldsSize(fs), 1
  {
    if |fs| == 0 then Ok([])
    else
      var e :- CompileField(reg, fs[0]);
      Prepend([e], CompileFields(reg, fs[1..]))
  }

  /** The body of that loop for one key. */
  function CompileField(reg: Registry, f: Field): Result<Expr>
    requires Valid(reg)
    decreases FieldSize(f), 0
  {
    var op :- ResolveOperator(reg, f.key);
    var tester := TesterOf(reg, op).value;
    if op in reg.traversable then
      var g := Rewrite(f);
      if g.val.Arr? then
        var ss :- CompileList(reg, g.val.elems);
        Ok(Expr(Some(g.key), NestedList(ss), tester))
      else
        var s :- Compile(reg, g.val, Some(g.key));
        Ok(Expr(Some(g.key), Nested(s), tester))
    else Ok(LiteralExpr(reg, op, Some(f.key), f.val))
  }

  /** An array operand of a traversable operator, compiled from its last
      element to its first (the order `push` leaves them in). */
  function CompileList(reg: Registry, es: seq<Value>): Result<seq<Stmt>>
    requires Valid(reg)
    decreases ListSize(es), 3
  {
    if |es| == 0 then Ok([])
    else
      var s :- Compile(reg, es[|es| - 1], None);
      Prepend([s], CompileList(reg, es[..|es| - 1]))
  }

  // ---------------------------------------------------------------------------
  // The source's loops

  /** `parse(statement, key)`. */
  method Parse(reg: Registry, q: Value, key: Option<string>) returns (r: Result<Stmt>)
    requires Valid(reg)
    ensures r == Compile(reg, q, key)
    decreases QuerySize(q), 2
  {
    FallbacksPresent(reg);
    if !Truthy(q) {
      return Ok(Stmt([LiteralExpr(reg, "$eq", Some("$eq"), q)], key));
    }
    if !q.Obj? {
      return Ok(Stmt([LiteralExpr(reg, "$eq", key, q)], key));
    }
    var fs := q.fields;
    var testers: seq<Expr> := [];
    var i := 0;
    PrependNothing(CompileFields(reg, fs));
    assert fs[0..] == fs;
    while i < |fs|
      invariant 0 <= i <= |fs|
      invariant CompileFields(reg, fs) == Prepend(testers, CompileFields(reg, fs[i..]))
    {
      FieldSizeBound(fs, i);
      FieldsStep(reg, fs, i, testers);
      var e :- ParseField(reg, fs[i]);
      testers := testers + [e];
      i := i + 1;
    }
    assert fs[i..] == [];
    assert testers + [] == testers;
    return Ok(Stmt(testers, key));
  }

  /** One iteration of `parse`'s key loop: resolve the operator, unfold a dotted
      key, and compile a traversable operand. */
  method ParseField(reg: Registry, f: Field) returns (r: Result<Expr>)
    requires Valid(reg)
    ensures r == CompileField(reg, f)
    decreases FieldSize(f), 1
  {
    var op :- ResolveOperator(reg, f.key);
    var tester := TesterOf(reg, op).value;
    if op !in reg.traversable {
      return Ok(LiteralExpr(reg, op, Some(f.key), f.val));
    }
    var k := f.key;
    var value := f.val;
    if '.' in k {
      var parts := Split(k);
      k := parts[0];
      value := ConvertDot(parts[1..], value);
    }
    assert Field(k, value) == Rewrite(f);
    if value.Arr? {
      var ss :- ParseList(reg, value.elems);
      return Ok(Expr(Some(k), NestedList(ss), tester));
    }
    var s :- Parse(reg, value, Some(k));
    return Ok(Expr(Some(k), Nested(s), tester));
  }

  /** `for (var i = value.length; i--;) exprValue.push(parse(value[i]))`. */
  method ParseList(reg: Registry, es: seq<Value>) returns (r: Result<seq<Stmt>>)
    requires Valid(reg)
    ensures r == CompileList(reg, es)
    decreases ListSize(es), 3
  {
    var list: seq<Stmt> := [];
    var i := |es|;
    PrependNothing(CompileList(reg, es));
    assert es[..|es|] == es;
    while i > 0
      invariant 0 <= i <= |es|
      invariant CompileList(reg, es) == Prepend(list, CompileList(reg, es[..i]))
    {
      i := i - 1;
      ListSizeBound(es, i);
      ListStep(reg, es, i, list);
      var s :- Parse(reg, es[i], None);
      list := list + [s];
    }
    assert list + [] == list;
    return Ok(list);
  }

  /** One step of `Parse`'s key loop: the key at `i` either throws, which
      ends the loop, or adds its expression. */
  lemma FieldsStep(reg: Registry, fs: seq<Field>, i: nat, testers: seq<Expr>)
    requires Valid(reg) && i < |fs|
    ensures CompileField(reg, fs[i]).Throws? ==>
      Prepend(testers, CompileFields(reg, fs[i..])) == Throws(CompileField(reg, fs[i]).fault)
    ensures CompileField(reg, fs[i]).Ok? ==>
      Prepend(testers, CompileFields(reg, fs[i..])) ==
      Prepend(testers + [CompileField(reg, fs[i]).value], CompileFields(reg, fs[i + 1..]))
  {
    assert fs[i..][0] == fs[i] && fs[i..][1..] == fs[i + 1..];
    if CompileField(reg, fs[i]).Ok? {
      PrependPrepend(testers, [CompileField(reg, fs[i]).value], CompileFields(reg, fs[i + 1..]));
    }
  }

  /** One step of `ParseList`'s loop, from the end of the array. */
  lemma ListStep(reg: Registry, es: seq<Value>, i: nat, list: seq<Stmt>)
    requires Valid(reg) && i < |es|
    ensures Compile(reg, es[i], None).Throws? ==>
      Prepend(list, CompileList(reg, es[..i + 1])) == Throws(Compile(reg, es[i], None).fault)
    ensures Compile(reg, es[i], None).Ok? ==>
      Prepend(list, CompileList(reg, es[..i + 1])) ==
      Prepend(list + [Compile(reg, es[i], None).value], CompileList(reg, es[..i]))
  {
    assert es[..i + 1][i] == es[i] && es[..i + 1][..i] == es[..i];
    if Compile(reg, es[i], None).Ok? {
      PrependPrepend(list, [Compile(reg, es[i], None).value], CompileList(reg, es[..i]));
    }
  }
}
