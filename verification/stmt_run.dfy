/**
  The loops of lib/stmt.js's `test` and `testers`, as the source writes them,
  each proved to return what `StmtEval` says.
*/
module StmtRun {
  import opened JsValue
  import opened StmtTree
  import opened StmtEval
  import SiftEval
  import SiftRun

  /** `test(statement, data)`. */
  method Test(s: WStmt, d: Value) returns (r: Result<bool>)
    decreases s, 0
    ensures r == Holds(s, d)
  {
    var exprs := s.exprs;
    var i := |exprs|;
    assert exprs[..i] == exprs;
    while i > 0
      invariant 0 <= i <= |exprs|
      invariant HoldsAll(exprs, d) == HoldsAll(exprs[..i], d)
    {
      var expr := exprs[i - 1];
      var ok := RunTester(expr.t, expr.v, Comparable(d));
      if ok != Ok(true) {
        return ok;
      }
      assert exprs[..i][..i - 1] == exprs[..i - 1];
      i := i - 1;
    }
    return Ok(true);
  }

  /** `testers[op](a, b)`. */
  method RunTester(op: WOp, a: WOperand, b: Value) returns (r: Result<bool>)
    decreases a, 2
    ensures r == Apply(op, a, b)
  {
    match op
    case In =>
      var v :- Literal(a);
      r := SiftRun.TestIn(v, b);
    case Nin =>
      var v :- Literal(a);
      var found := SiftRun.TestIn(v, b);
      r := SiftEval.Negate(found);
    case All =>
      match a {
        case Subs(ss) => r := TestAll(ss, b);
        case Sub(_) => r := Ok(true);
        case Lit(_) => r := Throws(TypeError);
      }
    case Or =>
      match a {
        case Subs(ss) => r := TestOr(ss, b);
        case Sub(_) => r := Ok(false);
        case Lit(_) => r := Throws(TypeError);
      }
    case And =>
      match a {
        case Subs(ss) => r := TestAnd(ss, b);
        case Sub(_) => r := Ok(true);
        case Lit(_) => r := Throws(TypeError);
      }
    case Trav =>
      if !Truthy(b) {
        r := Ok(false);
      } else if a.Sub? {
        r := Test(a.s, Get(b, KeyName(a.s.key)));
      } else {
        r := Throws(TypeError);
      }
    case _ =>
      r := Apply(op, a, b);
  }

  /** `$all` over an array of statements. */
  method TestAll(ss: seq<WStmt>, b: Value) returns (r: Result<bool>)
    ensures r == AllFound(ss, b)
  {
    var i := |ss|;
    assert ss[..i] == ss;
    while i > 0
      invariant 0 <= i <= |ss|
      invariant AllFound(ss, b) == AllFound(ss[..i], b)
    {
      var found := StmtFound(b);
      if found != Ok(true) {
        return found;
      }
      assert ss[..i][..i - 1] == ss[..i - 1];
      i := i - 1;
    }
    return Ok(true);
  }

  /** `$or`. */
  method TestOr(ss: seq<WStmt>, d: Value) returns (r: Result<bool>)
    decreases ss, 0
    ensures r == AnyHolds(ss, d)
  {
    var i := |ss|;
    assert ss[..i] == ss;
    while i > 0
      invariant 0 <= i <= |ss|
      invariant AnyHolds(ss, d) == AnyHolds(ss[..i], d)
    {
      var ok := Test(ss[i - 1], d);
      if ok != Ok(false) {
        return ok;
      }
      assert ss[..i][..i - 1] == ss[..i - 1];
      i := i - 1;
    }
    return Ok(false);
  }

  /** `$and`. */
  method TestAnd(ss: seq<WStmt>, d: Value) returns (r: Result<bool>)
    decreases ss, 0
    ensures r == AllHold(ss, d)
  {
    var i := |ss|;
    assert ss[..i] == ss;
    while i > 0
      invariant 0 <= i <= |ss|
      invariant AllHold(ss, d) == AllHold(ss[..i], d)
    {
      var ok := Test(ss[i - 1], d);
      if ok != Ok(true) {
        return ok;
      }
      assert ss[..i][..i - 1] == ss[..i - 1];
      i := i - 1;
    }
    return Ok(true);
  }
}
