/**
  The statements of lib/stmt.js, the older weighted builder: expressions
  carry a cost `w` (`WEIGHT_FACTOR[type] * 100 + weight(value)`) by which
  `orderExprs` sorts them, and `test` runs the cheapest first.
*/
module StmtTree {
  import opened JsValue

  /** The testers of lib/stmt.js. `$lte`, `$gte` and `$mod` have a tester but
      no weight factor, so `parse` never produces them; `$nor` has a weight
      factor but no tester. */
  datatype WOp =
    | Eq | Ne | Lt | Gt | Lte | Gte | Exists | In | Nin | Mod | All | Size
    | Or | Nor | And | Trav

  /** A JavaScript number as the weights use it: an integer, or NaN (what
      adding `undefined` gives). */
  datatype Weight = W(n: int) | NaN

  /** `x + y` on weights: NaN absorbs everything. */
  function Plus(x: Weight, y: Weight): (r: Weight)
    ensures r.W? <==> x.W? && y.W?
    ensures r.W? ==> r.n == x.n + y.n
  {
    if x.W? && y.W? then W(x.n + y.n) else NaN
  }

  /** Summing weights does not depend on the order or grouping of the terms,
      and 0 adds nothing. */
  lemma PlusLaws(x: Weight, y: Weight, z: Weight)
    ensures Plus(x, y) == Plus(y, x)
    ensures Plus(Plus(x, y), z) == Plus(x, Plus(y, z))
    ensures Plus(x, W(0)) == x
    ensures Plus(x, NaN) == NaN
  {
  }

  /** `x < y` on weights: false whenever NaN is involved. */
  predicate Below(x: Weight, y: Weight) {
    x.W? && y.W? && x.n < y.n
  }

  /** `WEIGHT_FACTOR[name]`: the operators the builder knows, by name. */
  function Operator(name: string): Option<WOp> {
    match name
    case "$eq" => Some(Eq)
    case "$ne" => Some(Ne)
    case "$exists" => Some(Exists)
    case "$lt" => Some(Lt)
    case "$gt" => Some(Gt)
    case "$size" => Some(Size)
    case "$in" => Some(In)
    case "$nin" => Some(Nin)
    case "$all" => Some(All)
    case "$or" => Some(Or)
    case "$nor" => Some(Nor)
    case "$and" => Some(And)
    case "$trav" => Some(Trav)
    case _ => None
  }

  /** The weight factor of an operator; `None` for the three testers the
      table does not list. */
  function Factor(op: WOp): Option<nat> {
    match op
    case Eq => Some(1)
    case Ne => Some(2)
    case Exists => Some(2)
    case Lt => Some(2)
    case Gt => Some(2)
    case Size => Some(3)
    case In => Some(4)
    case Nin => Some(4)
    case All => Some(5)
    case Or => Some(6)
    case Nor => Some(6)
    case And => Some(7)
    case Trav => Some(8)
    case Lte => None
    case Gte => None
    case Mod => None
  }

  /** `TRAV_OP`: the operators whose operand is compiled as a statement. */
  predicate Traversable(op: WOp) {
    op == And || op == Or || op == All || op == Trav
  }

  /** `WEIGHT_FACTOR[k] ? k : '$trav'`: a key the table knows is its own
      operator and every other key is a property to traverse; this never
      fails, and never yields an operator without a weight factor. */
  function Resolve(k: string): (op: WOp)
    ensures Factor(op).Some?
    ensures Operator(k).Some? ==> op == Operator(k).value
    ensures Operator(k).None? ==> op == Trav
  {
    if Operator(k).Some? then Operator(k).value else Trav
  }

  /** `comparable(value)`: a date becomes its epoch; anything else is itself
      (unlike sift.js, arrays are not copied). */
  function Comparable(v: Value): (c: Value)
    ensures !c.Date?
    ensures v.Date? ==> c == Num(v.epoch)
    ensures !v.Date? ==> c == v
  {
    if v.Date? then Num(v.epoch) else v
  }

  /** A `w` read from an object, as `number + w` uses it. */
  function ToWeight(x: Value): Weight {
    match x
    case Num(n) => W(n)
    case Null => W(0)
    case Bool(b) => W(if b then 1 else 0)
    case _ => NaN
  }

  /** `weight(value)`: 0 for undefined, booleans and null, 100 for a
      function, the length of a string, a number itself, the sum over an
      array's elements, and the `w` of any other object (dates and regular
      expressions have none, which makes NaN). */
  function ValueWeight(v: Value): Weight
    decreases v, 1
  {
    match v
    case Undefined => W(0)
    case Bool(_) => W(0)
    case Null => W(0)
    case Fn(_, _) => W(100)
    case Str(s) => W(|s|)
    case Num(n) => W(n)
    case Arr(_, es) => ArrayWeight(es)
    case _ => ToWeight(Get(v, "w"))
  }

  /** `weigh.array`: `total += weight(value[i])` from the last element down. */
  function ArrayWeight(es: seq<Value>): Weight
    decreases es, 0
  {
    if |es| == 0 then W(0) else Plus(ArrayWeight(es[1..]), ValueWeight(es[0]))
  }

  /** The loop of `weigh.array`. */
  method WeighArray(es: seq<Value>) returns (total: Weight)
    ensures total == ArrayWeight(es)
  {
    total := W(0);
    var i := |es|;
    assert es[|es|..] == [];
    while i > 0
      invariant 0 <= i <= |es|
      invariant total == ArrayWeight(es[i..])
    {
      i := i - 1;
      assert es[i..][0] == es[i] && es[i..][1..] == es[i + 1..];
      total := Plus(total, ValueWeight(es[i]));
    }
    assert es[0..] == es;
  }

  /** An expression's `v`: a literal after `comparable`, or what a
      traversable operator compiled its operand into. */
  datatype WOperand =
    | Lit(val: Value)
    | Sub(s: WStmt)             // a single statement (`builder.parse(value, k)`)
    | Subs(ss: seq<WStmt>)      // an ordered array of statements

  /** `{w, t, k, v, e}`; the tester `e` is the one the type `t` names. */
  datatype WExpr = WExpr(w: Weight, t: WOp, k: Option<string>, v: WOperand)

  /** `{exprs, k, w}`. */
  datatype WStmt = WStmt(exprs: seq<WExpr>, key: Option<string>, w: Weight)

  function ExprWeight(e: WExpr): Weight { e.w }

  function StmtWeight(s: WStmt): Weight { s.w }

  /** The sum `weight += x.w` over a list, taken from the last element down. */
  function SumW<T>(xs: seq<T>, w: T -> Weight): Weight {
    if |xs| == 0 then W(0) else Plus(SumW(xs[1..], w), w(xs[0]))
  }

  /** `weight(exprValue)`: a literal's own weight; a compiled statement is an
      object whose `w` is its weight; an array of them sums those. */
  function OperandWeight(a: WOperand): Weight {
    match a
    case Lit(v) => ValueWeight(v)
    case Sub(s) => s.w
    case Subs(ss) => SumW(ss, StmtWeight)
  }

  /** `getExpr(type, key, value)`. */
  function GetExpr(op: WOp, key: Option<string>, a: WOperand): (e: WExpr)
    requires Factor(op).Some?
    ensures e.t == op && e.k == key
    ensures e.v.Lit? <==> a.Lit?
    ensures e.v.Lit? ==> !e.v.val.Date? && e.v.val == Comparable(a.val)
    ensures !a.Lit? ==> e.v == a
    ensures e.w.W? <==> OperandWeight(a).W?
    ensures e.w.W? ==> e.w.n == Factor(op).value * 100 + OperandWeight(a).n
  {
    var v := if a.Lit? then Lit(Comparable(a.val)) else a;
    WExpr(Plus(W(Factor(op).value * 100), OperandWeight(a)), op, key, v)
  }
}
