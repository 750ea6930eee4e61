/**
  What a lib/stmt.js statement means: `test` and the `testers` table, as
  functions of the statement and the datum. A thrown exception is a `Throws`
  result; a tester's return value is read through its truthiness.
*/
module StmtEval {
  import opened JsValue
  import opened StmtTree
  import SiftEval

  /** `test(statement, data)`: the expressions from the last one down,
      stopping at the first that fails or throws. */
  function Holds(s: WStmt, d: Value): Result<bool>
    decreases s, 0
  {
    HoldsAll(s.exprs, d)
  }

  function HoldsAll(es: seq<WExpr>, d: Value): Result<bool>
    decreases es, 0
  {
    if |es| == 0 then Ok(true)
    else
      match Passes(es[|es| - 1], d)
      case Ok(true) => HoldsAll(es[..|es| - 1], d)
      case other => other
  }

  /** `expr.e(expr.v, comparable(data))`. */
  function Passes(e: WExpr, d: Value): Result<bool>
    decreases e, 0
  {
    Apply(e.t, e.v, Comparable(d))
  }

  /** The literal operand of a value tester. `parse` gives those testers a
      literal and no other operand (see `StmtLaws.BuiltWellShaped`); anything
      else is reported as a TypeError. */
  function Literal(a: WOperand): Result<Value> {
    if a.Lit? then Ok(a.val) else Throws(TypeError)
  }

  /** `testers[op](a, b)`; `$in`, `$nin` and `$mod` are the same code as in
      sift.js. `$nor` has no tester, so calling it throws. */
  function Apply(op: WOp, a: WOperand, b: Value): Result<bool>
    decreases a, 2
  {
    match op
    case Eq => var v :- Literal(a); Ok(StrictEq(v, b))
    case Ne => var v :- Literal(a); Ok(!StrictEq(v, b))
    case Lt => var v :- Literal(a); Ok(Greater(v, b))
    case Gt => var v :- Literal(a); Ok(Less(v, b))
    case Lte => var v :- Literal(a); Ok(AtLeast(v, b))
    case Gte => var v :- Literal(a); Ok(AtMost(v, b))
    case Exists => var v :- Literal(a); Ok(LooseEqBool(v, Truthy(b)))
    case In => var v :- Literal(a); SiftEval.InTest(v, b)
    case Nin => var v :- Literal(a); SiftEval.Negate(SiftEval.InTest(v, b))
    case Mod => var v :- Literal(a); SiftEval.ModTest(v, b)
    case Size =>
      var v :- Literal(a);
      if v.IsNullish() || b.IsNullish() then Throws(TypeError)
      else Ok(StrictEq(Get(v, "length"), Get(b, "length")))
    case All =>
      (match a
       case Subs(ss) => AllFound(ss, b)
       case Sub(_) => Ok(true)
       case Lit(_) => Throws(TypeError))
    case Or =>
      (match a
       case Subs(ss) => AnyHolds(ss, b)
       case Sub(_) => Ok(false)
       case Lit(_) => Throws(TypeError))
    case And =>
      (match a
       case Subs(ss) => AllHold(ss, b)
       case Sub(_) => Ok(true)
       case Lit(_) => Throws(TypeError))
    case Nor => Throws(TypeError)
    case Trav =>
      if !Truthy(b) then Ok(false)
      else
        (match a
         case Sub(s) => Holds(s, Get(b, KeyName(s.key)))
         case _ => Throws(TypeError))
  }

  /** `b.indexOf(stmt) != -1` for a compiled statement, which is an object no
      datum contains: never in an array, and in a string where the string
      holds "[object Object]". */
  function StmtFound(b: Value): Result<bool> {
    match b
    case Arr(_, _) => Ok(false)
    case Str(s) => Ok(Occurs("[object Object]", s))
    case _ => Throws(TypeError)
  }

  /** The loop of `$all` over an array of statements, from the end. */
  function AllFound(ss: seq<WStmt>, b: Value): Result<bool> {
    if |ss| == 0 then Ok(true)
    else
      match StmtFound(b)
      case Ok(true) => AllFound(ss[..|ss| - 1], b)
      case other => other
  }

  /** The loop of `$or`: from the end, the first statement that holds wins. */
  function AnyHolds(ss: seq<WStmt>, d: Value): Result<bool>
    decreases ss, 0
  {
    if |ss| == 0 then Ok(false)
    else
      match Holds(ss[|ss| - 1], d)
      case Ok(false) => AnyHolds(ss[..|ss| - 1], d)
      case other => other
  }

  /** The loop of `$and`: from the end, the first statement that fails wins. */
  function AllHold(ss: seq<WStmt>, d: Value): Result<bool>
    decreases ss, 0
  {
    if |ss| == 0 then Ok(true)
    else
      match Holds(ss[|ss| - 1], d)
      case Ok(true) => AllHold(ss[..|ss| - 1], d)
      case other => other
  }
}
