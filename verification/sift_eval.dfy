/**
  What a compiled sift.js statement means: `QueryParser.test` and the built-in
  testers, as functions of the statement and the datum. A thrown exception is a
  `Throws` result; whatever a tester returns is read through its truthiness,
  which is all `test`, `$not`, `$ne` and `$nin` ever look at.
*/
module SiftEval {
  import opened JsValue
  import opened SiftTree

  function Negate(r: Result<bool>): (n: Result<bool>)
    ensures r.Ok? <==> n.Ok?
    ensures r.Ok? ==> n.value == !r.value
    ensures r.Throws? ==> n == r
  {
    match r
    case Ok(b) => Ok(!b)
    case Throws(f) => Throws(f)
  }

  /** `test(statement, data)`: the expressions in order, stopping at the first
      one that fails or throws. */
  function Eval(h: Host, s: Stmt, d: Value): Result<bool>
    decreases s, 0
  {
    EvalExprs(h, s.exprs, d)
  }

  function EvalExprs(h: Host, es: seq<Expr>, d: Value): Result<bool>
    decreases es, 0
  {
    if |es| == 0 then Ok(true)
    else
      match EvalExpr(h, es[0], d)
      case Ok(true) => EvalExprs(h, es[1..], d)
      case other => other
  }

  /** `expr.e(expr.v, _comparable(data), data)`. */
  function EvalExpr(h: Host, e: Expr, d: Value): Result<bool>
    decreases e, 0
  {
    Apply(h, e.tester, e.operand, Comparable(d), d)
  }

  /** The literal operand of a value tester. Compiled statements always give
      those testers a literal (see `SiftLaws.CompiledWellShaped`); anything
      else is reported as a TypeError. */
  function Literal(a: Operand): Result<Value> {
    if a.Plain? then Ok(a.val) else Throws(TypeError)
  }

  /** Tester `t` with operand `a`, normalised candidate `b` and raw datum `org`. */
  function Apply(h: Host, t: Tester, a: Operand, b: Value, org: Value): Result<bool>
    decreases a, 2
  {
    match t
    case External(name) => h.ext(name, a, b, org)
    case Complement(name) => Negate(h.ext(name, a, b, Undefined))
    case Builtin(op) =>
      match op
      case Eq => CallTest(h, a, b, TypeError)
      case Ne => Negate(CallTest(h, a, b, TypeError))
      case Not => Negate(CallTest(h, a, b, NotAnExpression))
      case Lt => var v :- Literal(a); Ok(Greater(v, b))
      case Gt => var v :- Literal(a); Ok(Less(v, b))
      case Lte => var v :- Literal(a); Ok(AtLeast(v, b))
      case Gte => var v :- Literal(a); Ok(AtMost(v, b))
      case Exists => var v :- Literal(a); Ok(StrictEq(v, Bool(!b.IsNullish())))
      case In => var v :- Literal(a); InTest(v, b)
      case Nin => var v :- Literal(a); Negate(InTest(v, b))
      case Mod => var v :- Literal(a); ModTest(v, b)
      case All => var v :- Literal(a); AllTest(v, b)
      case Size => var v :- Literal(a); Ok(Truthy(b) && StrictEq(v, Get(b, "length")))
      case Or =>
        (match a
         case NestedList(ss) => if |ss| == 0 then Ok(true) else AnyStmt(h, ss, b)
         case Nested(_) => Ok(false)
         case _ => Throws(TypeError))
      case Nor =>
        (match a
         case NestedList(ss) => Negate(AnyStmt(h, ss, b))
         case Nested(_) => Ok(true)
         case _ => Throws(TypeError))
      case And =>
        (match a
         case NestedList(ss) => AllStmt(h, ss, b)
         case Nested(_) => Ok(true)
         case _ => Throws(TypeError))
      case Trav =>
        (match a
         case Nested(s) =>
           if b.Arr? then TravScan(h, s, b.elems)
           else Eval(h, s, if Truthy(b) then Get(b, KeyName(s.key)) else Undefined)
         case NestedList(_) =>
           if b.Arr? then TravListScan(b.elems) else Throws(TypeError)
         case _ => Throws(TypeError))
  }

  /** `a.test(b)`, as `$eq`, `$ne` and `$not` call it; `missing` is what is
      thrown when `a` has no `test` member. */
  function CallTest(h: Host, a: Operand, b: Value, missing: Fault): Result<bool>
    decreases a, 1
  {
    match a
    case Prepared(m) => Matches(h, m, b)
    case Nested(s) => Eval(h, s, b)
    case NestedList(_) => Throws(missing)
    case Plain(v) =>
      if v.IsNullish() then Throws(TypeError)
      else if v.Regex? then h.regexTest(v, b)
      else
        var t := Get(v, "test");
        if !Truthy(t) then Throws(missing)
        else if t.Fn? then (var x :- h.call(t, b); Ok(Truthy(x)))
        else Throws(TypeError)
  }

  /** The `test` of what `_prepare.$eq` made of a literal. */
  function Matches(h: Host, m: Matcher, b: Value): Result<bool> {
    match m
    case MatchRegex(re) => h.regexTest(re, b)
    case MatchFn(f) => var x :- h.call(f, b); Ok(Truthy(x))
    case MatchLit(lit) => Ok(if b.Arr? then IndexOf(b.elems, lit) >= 0 else StrictEq(lit, b))
  }

  /** `$in`: an array candidate is searched for element by element from its end. */
  function InTest(a: Value, b: Value): Result<bool> {
    if b.Arr? then InScan(a, b.elems) else Search(a, b)
  }

  function InScan(a: Value, es: seq<Value>): Result<bool> {
    if |es| == 0 then Ok(false)
    else
      match Search(a, es[|es| - 1])
      case Ok(false) => InScan(a, es[..|es| - 1])
      case other => other
  }

  /** `$mod`: `b % a[0] == a[1]`; a remainder that is NaN equals nothing. */
  function ModTest(a: Value, b: Value): Result<bool> {
    if a.IsNullish() then Throws(TypeError)
    else
      match (ToNumber(b), ToNumber(Get(a, "0")))
      case (Some(x), Some(m)) => Ok(m != 0 && LooseEqNum(TruncRem(x, m), Get(a, "1")))
      case _ => Ok(false)
  }

  /** `$all`: a falsy candidate stands for `[]`; the operand's elements are
      looked up in it from the end. */
  function AllTest(a: Value, b: Value): Result<bool> {
    var c := if Truthy(b) then b else Arr(Fresh, []);
    var xs :- Elements(a);
    AllScan(xs, c)
  }

  function AllScan(xs: seq<Value>, c: Value): Result<bool> {
    if |xs| == 0 then Ok(true)
    else
      match Search(c, xs[|xs| - 1])
      case Ok(true) => AllScan(xs[..|xs| - 1], c)
      case other => other
  }

  /** The loop of `$or` and `$nor`: from the end, the first statement that
      holds wins. */
  function AnyStmt(h: Host, ss: seq<Stmt>, d: Value): Result<bool>
    decreases ss, 0
  {
    if |ss| == 0 then Ok(false)
    else
      match Eval(h, ss[|ss| - 1], d)
      case Ok(false) => AnyStmt(h, ss[..|ss| - 1], d)
      case other => other
  }

  /** The loop of `$and`: from the end, the first statement that fails wins. */
  function AllStmt(h: Host, ss: seq<Stmt>, d: Value): Result<bool>
    decreases ss, 0
  {
    if |ss| == 0 then Ok(true)
    else
      match Eval(h, ss[|ss| - 1], d)
      case Ok(true) => AllStmt(h, ss[..|ss| - 1], d)
      case other => other
  }

  /** `$trav` over an array datum: from the end, an element whose `[k]` is
      truthy and satisfies the sub-statement wins; a null element throws. */
  function TravScan(h: Host, s: Stmt, es: seq<Value>): Result<bool>
    decreases s, |es| + 1
  {
    if |es| == 0 then Ok(false)
    else
      var e := es[|es| - 1];
      if e.IsNullish() then Throws(TypeError)
      else
        var v := Get(e, KeyName(s.key));
        if !Truthy(v) then TravScan(h, s, es[..|es| - 1])
        else
          match Eval(h, s, v)
          case Ok(false) => TravScan(h, s, es[..|es| - 1])
          case other => other
  }

  /** `$trav` with an array of statements (`{k: [..]}`) over an array datum:
      the array has no `exprs`, so reaching `test` throws. */
  function TravListScan(es: seq<Value>): Result<bool> {
    if |es| == 0 then Ok(false)
    else
      var e := es[|es| - 1];
      if e.IsNullish() || Truthy(Get(e, "undefined")) then Throws(TypeError)
      else TravListScan(es[..|es| - 1])
  }
}
