/**
  The loops of sift.js's `test` and of the testers that loop (`$in`, `$all`,
  `$or`, `$nor`, `$and`, `$trav`), each proved to return what `SiftEval`
  says the statement means.
*/
module SiftRun {
  import opened JsValue
  import opened SiftTree
  import opened SiftEval

  /** `test(statement, data)`: the expressions in order, stopping at the first
      one that is not satisfied. */
  method Test(h: Host, s: Stmt, d: Value) returns (r: Result<bool>)
    ensures r == Eval(h, s, d)
    decreases s, 0
  {
    var es := s.exprs;
    var i := 0;
    assert es[0..] == es;
    while i < |es|
      invariant 0 <= i <= |es|
      invariant Eval(h, s, d) == EvalExprs(h, es[i..], d)
    {
      assert es[i..][0] == es[i] && es[i..][1..] == es[i + 1..];
      var ok := TestExpr(h, es[i], d);
      if ok != Ok(true) {
        return ok;
      }
      i := i + 1;
    }
    return Ok(true);
  }

  /** `expr.e(expr.v, _comparable(data), data)`. */
  method TestExpr(h: Host, e: Expr, d: Value) returns (r: Result<bool>)
    ensures r == EvalExpr(h, e, d)
    decreases e, 0
  {
    r := RunTester(h, e.tester, e.operand, Comparable(d), d);
  }

  /** Runs one tester; the looping ones by their own methods. */
  method RunTester(h: Host, t: Tester, a: Operand, b: Value, org: Value) returns (r: Result<bool>)
    ensures r == Apply(h, t, a, b, org)
    decreases a, 4
  {
    match t
    case External(name) =>
      r := h.ext(name, a, b, org);
    case Complement(name) =>
      r := h.ext(name, a, b, Undefined);
      r := Negate(r);
    case Builtin(op) =>
      r := RunBuiltin(h, op, a, b, org);
  }

  /** Runs one built-in tester. */
  method RunBuiltin(h: Host, op: Op, a: Operand, b: Value, org: Value) returns (r: Result<bool>)
    ensures r == Apply(h, Builtin(op), a, b, org)
    decreases a, 3
  {
    match op
    case Eq | Ne | Not =>
      r := RunCallTest(h, op, a, b);
    case In | Nin | All =>
      var v :- Literal(a);
      r := RunMembership(op, v, b);
    case Or | Nor | And | Trav =>
      r := RunLogical(h, op, a, b, org);
    case Lt | Gt | Lte | Gte | Exists | Mod | Size =>
      // the testers without a loop
      r := Apply(h, Builtin(op), a, b, org);
  }

  method RunCallTest(h: Host, op: Op, a: Operand, b: Value) returns (r: Result<bool>)
    requires op == Eq || op == Ne || op == Not
    ensures forall org :: r == Apply(h, Builtin(op), a, b, org)
    decreases a, 2
  {
    r := TestOperand(h, a, b, if op == Not then NotAnExpression else TypeError);
    if op != Eq {
      r := Negate(r);
    }
  }

  method RunMembership(op: Op, v: Value, b: Value) returns (r: Result<bool>)
    requires op == In || op == Nin || op == All
    ensures forall h, org :: r == Apply(h, Builtin(op), Plain(v), b, org)
  {
    if op == All {
      r := TestAll(v, b);
    } else {
      r := TestIn(v, b);
      if op == Nin {
        r := Negate(r);
      }
    }
  }

  method RunLogical(h: Host, op: Op, a: Operand, b: Value, org: Value) returns (r: Result<bool>)
    requires op == Or || op == Nor || op == And || op == Trav
    ensures r == Apply(h, Builtin(op), a, b, org)
    decreases a, 2
  {
    if op == Trav {
      if a.Nested? {
        if b.Arr? {
          r := TestTrav(h, a.s, b.elems);
        } else {
          r := Test(h, a.s, if Truthy(b) then Get(b, KeyName(a.s.key)) else Undefined);
        }
      } else if a.NestedList? && b.Arr? {
        r := TestTravList(b.elems);
      } else {
        r := Throws(TypeError);
      }
    } else if !a.NestedList? {
      r := if a.Nested? then Ok(op != Or) else Throws(TypeError);
    } else if op == Or {
      r := TestOr(h, a.ss, b);
    } else if op == Nor {
      r := TestNor(h, a.ss, b);
    } else {
      r := TestAnd(h, a.ss, b);
    }
  }

  /** `a.test(b)` for `$eq`, `$ne` and `$not`. */
  method TestOperand(h: Host, a: Operand, b: Value, missing: Fault) returns (r: Result<bool>)
    ensures r == CallTest(h, a, b, missing)
    decreases a, 1
  {
    if a.Nested? {
      r := Test(h, a.s, b);
    } else {
      r := CallTest(h, a, b, missing);
    }
  }

  /** `$in`. */
  method TestIn(a: Value, b: Value) returns (r: Result<bool>)
    ensures r == InTest(a, b)
  {
    if !b.Arr? {
      return Search(a, b);
    }
    var es := b.elems;
    var i := |es|;
    assert es[..|es|] == es;
    while i > 0
      invariant 0 <= i <= |es|
      invariant InScan(a, es) == InScan(a, es[..i])
    {
      i := i - 1;
      assert es[..i + 1][i] == es[i] && es[..i + 1][..i] == es[..i];
      var found := Search(a, es[i]);
      if found != Ok(false) {
        return found;
      }
    }
    return Ok(false);
  }

  /** `$all`. */
  method TestAll(a: Value, b: Value) returns (r: Result<bool>)
    ensures r == AllTest(a, b)
  {
    var c := b;
    if !Truthy(c) {
      c := Arr(Fresh, []);
    }
    var xs :- Elements(a);
    var i := |xs|;
    assert xs[..|xs|] == xs;
    while i > 0
      invariant 0 <= i <= |xs|
      invariant AllScan(xs, c) == AllScan(xs[..i], c)
    {
      i := i - 1;
      assert xs[..i + 1][i] == xs[i] && xs[..i + 1][..i] == xs[..i];
      var found := Search(c, xs[i]);
      if found != Ok(true) {
        return found;
      }
    }
    return Ok(true);
  }

  /** `$or`: true at the first sub-statement (from the end) that holds, and
      otherwise whether the list was empty. */
  method TestOr(h: Host, ss: seq<Stmt>, d: Value) returns (r: Result<bool>)
    ensures r == if |ss| == 0 then Ok(true) else AnyStmt(h, ss, d)
    decreases ss, 0
  {
    var i := |ss|;
    var n := i;
    assert ss[..|ss|] == ss;
    while i > 0
      invariant 0 <= i <= |ss|
      invariant AnyStmt(h, ss, d) == AnyStmt(h, ss[..i], d)
    {
      i := i - 1;
      assert ss[..i + 1][i] == ss[i] && ss[..i + 1][..i] == ss[..i];
      var ok := Test(h, ss[i], d);
      if ok != Ok(false) {
        return ok;
      }
    }
    return Ok(n == 0);
  }

  /** `$nor`: false at the first sub-statement (from the end) that holds. */
  method TestNor(h: Host, ss: seq<Stmt>, d: Value) returns (r: Result<bool>)
    ensures r == Negate(AnyStmt(h, ss, d))
    decreases ss, 0
  {
    var i := |ss|;
    assert ss[..|ss|] == ss;
    while i > 0
      invariant 0 <= i <= |ss|
      invariant AnyStmt(h, ss, d) == AnyStmt(h, ss[..i], d)
    {
      i := i - 1;
      assert ss[..i + 1][i] == ss[i] && ss[..i + 1][..i] == ss[..i];
      var ok := Test(h, ss[i], d);
      if ok != Ok(false) {
        return Negate(ok);
      }
    }
    return Ok(true);
  }

  /** `$and`: false at the first sub-statement (from the end) that fails. */
  method TestAnd(h: Host, ss: seq<Stmt>, d: Value) returns (r: Result<bool>)
    ensures r == AllStmt(h, ss, d)
    decreases ss, 0
  {
    var i := |ss|;
    assert ss[..|ss|] == ss;
    while i > 0
      invariant 0 <= i <= |ss|
      invariant AllStmt(h, ss, d) == AllStmt(h, ss[..i], d)
    {
      i := i - 1;
      assert ss[..i + 1][i] == ss[i] && ss[..i + 1][..i] == ss[..i];
      var ok := Test(h, ss[i], d);
      if ok != Ok(true) {
        return ok;
      }
    }
    return Ok(true);
  }

  /** `$trav` over an array datum. */
  method TestTrav(h: Host, s: Stmt, es: seq<Value>) returns (r: Result<bool>)
    ensures r == TravScan(h, s, es)
    decreases s, |es| + 1
  {
    var i := |es|;
    assert es[..|es|] == es;
    while i > 0
      invariant 0 <= i <= |es|
      invariant TravScan(h, s, es) == TravScan(h, s, es[..i])
    {
      i := i - 1;
      assert es[..i + 1][i] == es[i] && es[..i + 1][..i] == es[..i];
      var sub := es[i];
      if sub.IsNullish() {
        return Throws(TypeError);
      }
      var v := Get(sub, KeyName(s.key));
      if Truthy(v) {
        var ok := Test(h, s, v);
        if ok != Ok(false) {
          return ok;
        }
      }
    }
    return Ok(false);
  }

  /** `$trav` with an array of statements over an array datum. */
  method TestTravList(es: seq<Value>) returns (r: Result<bool>)
    ensures r == TravListScan(es)
  {
    var i := |es|;
    assert es[..|es|] == es;
    while i > 0
      invariant 0 <= i <= |es|
      invariant TravListScan(es) == TravListScan(es[..i])
    {
      i := i - 1;
      assert es[..i + 1][i] == es[i] && es[..i + 1][..i] == es[..i];
      var sub := es[i];
      if sub.IsNullish() || Truthy(Get(sub, "undefined")) {
        return Throws(TypeError);
      }
    }
    return Ok(false);
  }
}
