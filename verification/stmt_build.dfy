/**
  `builder.parse(statement, key)` of lib/stmt.js: every key of an object
  becomes an expression (an operator the weight table knows, or a property to
  traverse), a non-object becomes an `$eq` expression, and the expressions are
  sorted by weight. `Build` says what comes out; `Parse` is the source's code,
  proved to return exactly that.
*/
module StmtBuild {
  import opened JsValue
  import opened StmtTree
  import opened StmtOrder

  /** `typeof statement == 'object'`: null, arrays, dates, regular
      expressions and plain objects. */
  predicate IsObject(v: Value) {
    v.Null? || v.Arr? || v.Obj? || v.Date? || v.Regex?
  }

  /** The expressions before sorting, in `for (k in statement)` order: an
      object's own keys, an array's indices; null, dates and regular
      expressions have none. Anything else is compared with `$eq`; the
      source passes the loop variable `k`, still undefined there, as its key. */
  function Exprs(v: Value): seq<WExpr>
    decreases v, 1
  {
    match v
    case Obj(_, fs) => FieldsExprs(fs)
    case Arr(_, elems) => IndexExprs(elems)
    case Null => []
    case Date(_, _) => []
    case Regex(_) => []
    case _ => [GetExpr(Eq, None, Lit(v))]
  }

  /** The expressions of an object's keys, in order. */
  function FieldsExprs(fs: seq<Field>): seq<WExpr>
    decreases fs, 0
  {
    if |fs| == 0 then []
    else FieldsExprs(fs[..|fs| - 1]) + [FieldExpr(fs[|fs| - 1].key, fs[|fs| - 1].val)]
  }

  /** The expressions of an array's indices, in order. */
  function IndexExprs(elems: seq<Value>): seq<WExpr>
    decreases elems, 0
  {
    if |elems| == 0 then []
    else IndexExprs(elems[..|elems| - 1]) + [FieldExpr(NatToString(|elems| - 1), elems[|elems| - 1])]
  }

  /** The expression for one key: a traversable operator with an array gets
      the statements its elements parse to (pushed from the last element,
      then sorted), with anything else the statement its value parses to
      under that key; other operators get the value itself. */
  function FieldExpr(k: string, value: Value): WExpr
    decreases value, 3
  {
    var op := Resolve(k);
    var a :=
      if !Traversable(op) then Lit(value)
      else if value.Arr? then Subs(Ordered(BuildList(value.elems), StmtWeight))
      else Sub(Build(value, Some(k)));
    GetExpr(op, Some(k), a)
  }

  /** The statements of an array's elements, from the last element down,
      each without a key. */
  function BuildList(elems: seq<Value>): (ss: seq<WStmt>)
    decreases elems, 0
    ensures |ss| == |elems|
  {
    if |elems| == 0 then []
    else [Build(elems[|elems| - 1], None)] + BuildList(elems[..|elems| - 1])
  }

  /** `builder.parse(statement, key)`: the expressions sorted by weight, the
      key, and the sum of the expression weights. */
  function Build(v: Value, key: Option<string>): WStmt
    decreases v, 2
  {
    var es := Exprs(v);
    WStmt(Ordered(es, ExprWeight), key, SumW(es, ExprWeight))
  }

  // ---------------------------------------------------------------------------
  // The source's code

  /** `builder.parse(statement, key)`. */
  method Parse(v: Value, key: Option<string>) returns (s: WStmt)
    decreases v, 2
    ensures s == Build(v, key)
  {
    var testers := ParseKeys(v);
    var weight := SumWeights(testers);
    var sorted := new WExpr[|testers|](j requires 0 <= j < |testers| => testers[j]);
    assert sorted[..] == testers;
    OrderExprs(sorted, ExprWeight);
    s := WStmt(sorted[..], key, weight);
  }

  /** The expressions `parse` pushes before sorting them. */
  method ParseKeys(v: Value) returns (testers: seq<WExpr>)
    decreases v, 1
    ensures testers == Exprs(v)
  {
    match v
    case Obj(_, _) => testers := ParseObject(v);
    case Arr(_, _) => testers := ParseArray(v);
    case Null => testers := [];
    case Date(_, _) => testers := [];
    case Regex(_) => testers := [];
    case _ => testers := [GetExpr(Eq, None, Lit(v))];
  }

  /** The `for (k in statement)` loop over an object's own keys. */
  method ParseObject(v: Value) returns (testers: seq<WExpr>)
    requires v.Obj?
    decreases v, 0
    ensures testers == Exprs(v)
  {
    var fs := v.fields;
    testers := [];
    for i := 0 to |fs|
      invariant testers == FieldsExprs(fs[..i])
    {
      assert fs[..i + 1][..i] == fs[..i];
      var e := ParseField(fs[i].key, fs[i].val);
      testers := testers + [e];
    }
    assert fs[..|fs|] == fs;
  }

  /** The `for (k in statement)` loop over an array's indices. */
  method ParseArray(v: Value) returns (testers: seq<WExpr>)
    requires v.Arr?
    decreases v, 0
    ensures testers == Exprs(v)
  {
    var elems := v.elems;
    testers := [];
    for i := 0 to |elems|
      invariant testers == IndexExprs(elems[..i])
    {
      var e := ParseField(NatToString(i), elems[i]);
      IndexStep(elems, i);
      testers := testers + [e];
    }
    assert elems[..|elems|] == elems;
  }

  /** One step of the `ParseArray` loop. */
  lemma IndexStep(elems: seq<Value>, i: nat)
    requires i < |elems|
    ensures IndexExprs(elems[..i + 1]) == IndexExprs(elems[..i]) + [FieldExpr(NatToString(i), elems[i])]
  {
    assert elems[..i + 1][..i] == elems[..i];
  }

  /** `for (i = testers.length; i--;) weight += testers[i].w`. */
  method SumWeights(testers: seq<WExpr>) returns (weight: Weight)
    ensures weight == SumW(testers, ExprWeight)
  {
    weight := W(0);
    var i := |testers|;
    assert testers[|testers|..] == [];
    while i > 0
      invariant 0 <= i <= |testers|
      invariant weight == SumW(testers[i..], ExprWeight)
    {
      i := i - 1;
      assert testers[i..][0] == testers[i] && testers[i..][1..] == testers[i + 1..];
      weight := Plus(weight, testers[i].w);
    }
    assert testers[0..] == testers;
  }

  /** The body of the `for (k in statement)` loop for one key. */
  method ParseField(k: string, value: Value) returns (e: WExpr)
    decreases value, 3
    ensures e == FieldExpr(k, value)
  {
    var op := Resolve(k);
    var a: WOperand;
    if !Traversable(op) {
      a := Lit(value);
    } else if value.Arr? {
      var list := ParseList(value.elems);
      var arr := new WStmt[|list|](j requires 0 <= j < |list| => list[j]);
      assert arr[..] == list;
      OrderExprs(arr, StmtWeight);
      a := Subs(arr[..]);
    } else {
      var sub := Parse(value, Some(k));
      a := Sub(sub);
    }
    e := GetExpr(op, Some(k), a);
  }

  /** `for (i = value.length; i--;) exprValue.push(builder.parse(value[i]))`. */
  method ParseList(elems: seq<Value>) returns (ss: seq<WStmt>)
    decreases elems, 0
    ensures ss == BuildList(elems)
  {
    ss := [];
    var i := |elems|;
    assert elems[..|elems|] == elems;
    while i > 0
      invariant 0 <= i <= |elems|
      invariant BuildList(elems) == ss + BuildList(elems[..i])
    {
      i := i - 1;
      var s := Parse(elems[i], None);
      BuildListStep(elems, i, ss, s);
      ss := ss + [s];
    }
  }

  /** One step of the `ParseList` loop. */
  lemma BuildListStep(elems: seq<Value>, i: nat, ss: seq<WStmt>, s: WStmt)
    requires i < |elems| && s == Build(elems[i], None)
    ensures ss + BuildList(elems[..i + 1]) == (ss + [s]) + BuildList(elems[..i])
  {
    assert elems[..i + 1][..i] == elems[..i];
    assert BuildList(elems[..i + 1]) == [s] + BuildList(elems[..i]);
  }
}
