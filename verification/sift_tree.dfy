/**
  The compiled form of a query in sift.js's `QueryParser`: statements
  (`{exprs, k}`) made of expressions (`{k, v, e}`), the operator table that
  `parse` resolves keys against, and the value normalisation both use.
*/
module SiftTree {
  import opened JsValue

  /** The built-in testers of sift.js whose meaning is modelled; `$regex`,
      `$where` and `$type` are left to the host (see `Host`). */
  datatype Op =
    | Eq | Ne | Lt | Gt | Lte | Gte | Exists | In | Nin | Mod | All | Size
    | Or | Nor | And | Not | Trav

  /** The function an expression evaluates with (`e`): a built-in, or one the
      host supplies (`$regex`, `$where`, `$type`, or one registered by a user).
      `$nin` is `!_testers.$in(a, b)`: once a user has replaced `$in`, it is
      the negation of that replacement, called without the raw datum. */
  datatype Tester = Builtin(op: Op) | External(name: string) | Complement(name: string)

  /** The `{test: fn}` object (or the RegExp itself) that `_prepare.$eq` makes
      of an `$eq`/`$ne` literal. */
  datatype Matcher =
    | MatchRegex(re: Value)   // a RegExp literal is kept and its own `test` is used
    | MatchFn(f: Value)       // a function literal is called with the candidate
    | MatchLit(lit: Value)    // any other literal: element of an array candidate, or `===`

  /** An expression's `v`. */
  datatype Operand =
    | Plain(val: Value)           // a literal, after `_comparable`
    | Prepared(m: Matcher)        // a literal of `$eq`/`$ne`, after `_prepare`
    | Nested(s: Stmt)             // a traversable operator's single sub-statement
    | NestedList(ss: seq<Stmt>)   // a traversable operator's array of sub-statements

  datatype Expr = Expr(key: Option<string>, operand: Operand, tester: Tester)

  datatype Stmt = Stmt(exprs: seq<Expr>, key: Option<string>)

  /** The tester table (`_testers`) and the traversable set (`TRAV_OP`). The
      table is the built-in one overlaid with the names registered through
      `useOperator`, each of which maps to the user's function. */
  datatype Registry = Registry(registered: set<string>, traversable: set<string>)

  predicate IsStructural(op: Op) {
    op == And || op == Or || op == Nor || op == Trav || op == Not
  }

  /** The built-in entries of `_testers`. */
  function BuiltinTester(name: string): Option<Tester> {
    match name
    case "$eq" => Some(Builtin(Eq))
    case "$ne" => Some(Builtin(Ne))
    case "$lt" => Some(Builtin(Lt))
    case "$gt" => Some(Builtin(Gt))
    case "$lte" => Some(Builtin(Lte))
    case "$gte" => Some(Builtin(Gte))
    case "$exists" => Some(Builtin(Exists))
    case "$in" => Some(Builtin(In))
    case "$not" => Some(Builtin(Not))
    case "$type" => Some(External("$type"))
    case "$nin" => Some(Builtin(Nin))
    case "$mod" => Some(Builtin(Mod))
    case "$all" => Some(Builtin(All))
    case "$size" => Some(Builtin(Size))
    case "$or" => Some(Builtin(Or))
    case "$nor" => Some(Builtin(Nor))
    case "$and" => Some(Builtin(And))
    case "$trav" => Some(Builtin(Trav))
    case "$regex" => Some(External("$regex"))
    case "$where" => Some(External("$where"))
    case _ => None
  }

  /** `_testers[name]`, or `None` where the table has no (truthy) entry. */
  function TesterOf(reg: Registry, name: string): Option<Tester> {
    if name in reg.registered then Some(External(name))
    else if name == "$nin" && "$in" in reg.registered then Some(Complement("$in"))
    else BuiltinTester(name)
  }

  /** `$eq` and `$trav`, which `parse` falls back on, are always in the table. */
  lemma FallbacksPresent(reg: Registry)
    ensures TesterOf(reg, "$eq").Some? && TesterOf(reg, "$trav").Some?
  {
  }

  /** The table every `QueryParser` starts with. */
  const Default := Registry({}, {"$and", "$or", "$nor", "$trav", "$not"})

  /** What `parse` relies on and `useOperator` keeps: every registered name
      starts with `$`; `$trav` is traversable; the names with a prepare step
      are not; a built-in tester still in the table is traversable exactly
      when its operand is a query. (`$eq` and `$trav` are always present.) */
  ghost predicate Valid(reg: Registry) {
    && "$trav" in reg.traversable
    && "$eq" !in reg.traversable && "$ne" !in reg.traversable && "$where" !in reg.traversable
    && (forall name :: name in reg.registered ==> |name| > 0 && name[0] == '$')
    && (forall name :: KeepsShape(reg, name))
  }

  /** A built-in tester still in the table is traversable exactly when its
      operand is a query. */
  predicate KeepsShape(reg: Registry, name: string) {
    name !in reg.registered && BuiltinTester(name).Some? && BuiltinTester(name).value.Builtin? ==>
      (name in reg.traversable <==> IsStructural(BuiltinTester(name).value.op))
  }

  /** The facts about one built-in name that `Valid` needs. */
  lemma BuiltinName(name: string)
    requires BuiltinTester(name).Some?
    ensures |name| > 0 && name[0] == '$'
    ensures BuiltinTester(name).value.Builtin? ==>
      (name in Default.traversable <==> IsStructural(BuiltinTester(name).value.op))
    ensures BuiltinTester(name) == Some(Builtin(Eq)) ==> name == "$eq"
    ensures BuiltinTester(name) == Some(Builtin(Ne)) ==> name == "$ne"
  {
  }

  lemma DefaultValid()
    ensures Valid(Default)
  {
    forall name
      ensures KeepsShape(Default, name)
    {
      if BuiltinTester(name).Some? {
        BuiltinName(name);
      }
    }
  }

  /** Every name in the table starts with `$`, so a key without one is never an
      operator of its own. */
  lemma TesterOfDollar(reg: Registry, name: string)
    requires Valid(reg)
    requires TesterOf(reg, name).Some?
    ensures |name| > 0 && name[0] == '$'
  {
    if name !in reg.registered {
      BuiltinName(name);
    }
  }

  /** `sift.useOperator(name, {test, traversable})`: the tester under
      `"$" + name` becomes the user's function and the name becomes
      traversable when asked (it never stops being traversable). Making `$eq`,
      `$ne` or `$where` traversable is excluded: the source would then recurse
      forever on a falsy query or prepare a compiled statement as a literal. */
  function UseOperator(reg: Registry, name: string, traversable: bool): (r: Registry)
    requires Valid(reg)
    requires traversable ==> name != "eq" && name != "ne" && name != "where"
    ensures Valid(r)
    ensures TesterOf(r, "$" + name) == Some(External("$" + name))
    ensures forall k :: k != "$" + name && !(k == "$nin" && name == "in") ==> TesterOf(r, k) == TesterOf(reg, k)
    ensures name == "in" && "$nin" !in reg.registered ==> TesterOf(r, "$nin") == Some(Complement("$in"))
    ensures forall k :: k in r.traversable <==> k in reg.traversable || (traversable && k == "$" + name)
  {
    var key := "$" + name;
    assert key[1..] == name;
    assert name == "in" ==> key == "$in";
    var r := Registry(reg.registered + {key}, if traversable then reg.traversable + {key} else reg.traversable);
    forall k
      ensures KeepsShape(r, k)
    {
      assert KeepsShape(reg, k);
    }
    Registry(reg.registered + {key}, if traversable then reg.traversable + {key} else reg.traversable)
  }

  /** What the evaluator cannot see: what a user function returns or throws,
      what a regular expression's `test` answers or throws, and the testers it
      does not model (`$regex`, `$where`, `$type` and user operators, given the
      operand, the normalised candidate and the raw datum). */
  datatype Host = Host(
    call: (Value, Value) -> Result<Value>,
    regexTest: (Value, Value) -> Result<bool>,
    ext: (string, Operand, Value, Value) -> Result<bool>)

  /** `_comparable`: a date becomes its epoch and an array is copied with its
      elements made comparable; anything else is itself. */
  function Comparable(v: Value): Value {
    match v
    case Date(_, t) => Num(t)
    case Arr(_, es) => Arr(Fresh, seq(|es|, i requires 0 <= i < |es| => Comparable(es[i])))
    case _ => v
  }

  /** No date anywhere inside, and every array is a fresh copy. */
  ghost predicate IsComparable(v: Value) {
    match v
    case Date(_, _) => false
    case Arr(id, es) => id == Fresh && forall i :: 0 <= i < |es| ==> IsComparable(es[i])
    case _ => true
  }

  lemma {:induction false} ComparableIsComparable(v: Value)
    ensures IsComparable(Comparable(v))
  {
    match v
    case Arr(_, es) =>
      forall i | 0 <= i < |es| ensures IsComparable(Comparable(v).elems[i]) {
        ComparableIsComparable(es[i]);
      }
    case _ =>
  }

  /** Values already in comparable form are left as they are. */
  lemma {:induction false} ComparableFixes(v: Value)
    requires IsComparable(v)
    ensures Comparable(v) == v
  {
    match v
    case Arr(_, es) =>
      forall i | 0 <= i < |es| ensures Comparable(es[i]) == es[i] {
        ComparableFixes(es[i]);
      }
      assert Comparable(v).elems == es;
    case _ =>
  }

  /** Normalising twice is normalising once. */
  lemma ComparableIdempotent(v: Value)
    ensures Comparable(Comparable(v)) == Comparable(v)
  {
    ComparableIsComparable(v);
    ComparableFixes(Comparable(v));
  }

  /** `_prepare.$eq` (also used for `$ne`). */
  function Prepare(a: Value): Matcher {
    if a.Regex? then MatchRegex(a)
    else if a.Fn? then MatchFn(a)
    else MatchLit(a)
  }

  /** `_getExpr(type, key, value)` for a literal `value`: normalise it, prepare
      it when the operator has a prepare step, and capture the tester. */
  function LiteralExpr(reg: Registry, op: string, key: Option<string>, value: Value): (e: Expr)
    requires TesterOf(reg, op).Some?
    ensures e.tester == TesterOf(reg, op).value && e.key == key
    ensures op == "$eq" || op == "$ne" ==> e.operand == Prepared(Prepare(Comparable(value)))
    ensures op != "$eq" && op != "$ne" ==> e.operand == Plain(Comparable(value))
  {
    var v := Comparable(value);
    Expr(key, if op == "$eq" || op == "$ne" then Prepared(Prepare(v)) else Plain(v), TesterOf(reg, op).value)
  }

  /** What `_getExpr` does to a literal: `$eq` and `$ne` (and only they) get a
      prepared operand; a regular expression or a function is kept as the
      matcher; any other literal is stored without dates and with fresh array
      copies, and unchanged when it was already in that form. */
  lemma LiteralExprNormalises(reg: Registry, op: string, key: Option<string>, value: Value)
    requires TesterOf(reg, op).Some?
    ensures var e := LiteralExpr(reg, op, key, value);
      (e.operand.Plain? || e.operand.Prepared?) &&
      (e.operand.Prepared? <==> op == "$eq" || op == "$ne") &&
      (e.operand.Plain? ==>
        IsComparable(e.operand.val) && (IsComparable(value) ==> e.operand.val == value)) &&
      (e.operand.Prepared? ==>
        match e.operand.m
        case MatchRegex(re) => value.Regex? && re == value
        case MatchFn(f) => value.Fn? && f == value
        case MatchLit(l) =>
          !value.Regex? && !value.Fn? && IsComparable(l) && (IsComparable(value) ==> l == value))
  {
    ComparableIsComparable(value);
    if IsComparable(value) {
      ComparableFixes(value);
    }
  }
}
