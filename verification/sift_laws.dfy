/**
  What sift.js promises about compiled queries: `test` is a conjunction, keys
  resolve as documented, dotted keys are nested objects, the literal and
  membership operators mean what their names say, the logical operators are
  the boolean connectives, and `$trav` is existential over array data.
*/
module SiftLaws {
  import opened JsValue
  import opened SiftTree
  import opened SiftEval
  import opened SiftParse

  // ---------------------------------------------------------------------------
  // `test`

  lemma {:induction false} ExprsAllTrue(h: Host, es: seq<Expr>, d: Value)
    ensures EvalExprs(h, es, d) == Ok(true) <==>
      forall i :: 0 <= i < |es| ==> EvalExpr(h, es[i], d) == Ok(true)
  {
    if |es| > 0 {
      ExprsAllTrue(h, es[1..], d);
      assert forall i :: 1 <= i < |es| ==> es[1..][i - 1] == es[i];
    }
  }

  /** A statement holds exactly when every one of its expressions does; an
      empty statement holds. */
  lemma TestIsConjunction(h: Host, s: Stmt, d: Value)
    ensures Eval(h, s, d) == Ok(true) <==>
      forall i :: 0 <= i < |s.exprs| ==> EvalExpr(h, s.exprs[i], d) == Ok(true)
    ensures |s.exprs| == 0 ==> Eval(h, s, d) == Ok(true)
  {
    ExprsAllTrue(h, s.exprs, d);
  }

  /** `test` stops at the first expression that is not satisfied: its outcome
      (false, or the exception it throws) is the statement's, whatever follows. */
  lemma {:induction false} TestStopsAtFirstFailure(h: Host, es: seq<Expr>, d: Value, i: nat)
    requires i < |es|
    requires forall j :: 0 <= j < i ==> EvalExpr(h, es[j], d) == Ok(true)
    requires EvalExpr(h, es[i], d) != Ok(true)
    ensures EvalExprs(h, es, d) == EvalExpr(h, es[i], d)
  {
    if i > 0 {
      assert EvalExpr(h, es[0], d) == Ok(true);
      assert forall j :: 0 <= j < i - 1 ==> es[1..][j] == es[j + 1];
      TestStopsAtFirstFailure(h, es[1..], d, i - 1);
    }
  }

  // ---------------------------------------------------------------------------
  // Key resolution and literal statements

  /** A falsy query is `{$eq: q}`, and any other value that is not a plain
      object is compared with `$eq` under the statement's own key: either way,
      one `$eq` expression on the normalised, prepared literal. */
  lemma CompileLiteral(reg: Registry, q: Value, key: Option<string>)
    requires Valid(reg)
    requires !Truthy(q) || !q.Obj?
    ensures Compile(reg, q, key).Ok?
    ensures var s := Compile(reg, q, key).value;
      && s.key == key && |s.exprs| == 1
      && s.exprs[0].key == (if Truthy(q) then key else Some("$eq"))
      && s.exprs[0].operand == Prepared(Prepare(Comparable(q)))
      && s.exprs[0].tester == TesterOf(reg, "$eq").value
  {
    FallbacksPresent(reg);
  }

  /** A key the table does not have and that starts with `$` makes `parse`
      throw "Unknown operator" as soon as it is reached: after keys that
      compile, and whatever keys follow it. */
  lemma UnknownOperatorThrows(reg: Registry, id: Ref, pre: seq<Field>, k: string, v: Value, rest: seq<Field>, key: Option<string>)
    requires Valid(reg)
    requires forall j :: 0 <= j < |pre| ==> CompileField(reg, pre[j]).Ok?
    requires TesterOf(reg, k).None? && StartsWithDollar(k)
    ensures Compile(reg, Obj(id, pre + [Field(k, v)] + rest), key) == Throws(UnknownOperator(k))
  {
    var fs := pre + [Field(k, v)] + rest;
    assert fs[|pre|] == Field(k, v);
    assert forall j :: 0 <= j < |pre| ==> fs[j] == pre[j];
    CompileFieldsStop(reg, fs, |pre|);
  }

  /** The key loop stops at the first key that throws, with its exception. */
  lemma {:induction false} CompileFieldsStop(reg: Registry, fs: seq<Field>, i: nat)
    requires Valid(reg)
    requires i < |fs|
    requires forall j :: 0 <= j < i ==> CompileField(reg, fs[j]).Ok?
    requires CompileField(reg, fs[i]).Throws?
    ensures CompileFields(reg, fs) == Throws(CompileField(reg, fs[i]).fault)
    decreases i
  {
    var tail := fs[1..];
    if i > 0 {
      assert tail[i - 1] == fs[i];
      assert forall j :: 0 <= j < i - 1 ==> tail[j] == fs[j + 1];
      CompileFieldsStop(reg, tail, i - 1);
      CompileFieldsStep(reg, fs);
    } else {
      CompileFieldsStep(reg, fs);
    }
  }

  /** One turn of the key loop: the first key's outcome, then the rest. */
  lemma CompileFieldsStep(reg: Registry, fs: seq<Field>)
    requires Valid(reg)
    requires |fs| > 0
    ensures CompileField(reg, fs[0]).Throws? ==> CompileFields(reg, fs) == Throws(CompileField(reg, fs[0]).fault)
    ensures CompileField(reg, fs[0]).Ok? && CompileFields(reg, fs[1..]).Throws? ==>
      CompileFields(reg, fs) == CompileFields(reg, fs[1..])
  {
  }

  /** A property key (no leading `$`, no dot) compiles to `$trav` on the
      sub-query. */
  lemma PropertyCompiles(reg: Registry, k: string, q: Value, s: Stmt)
    requires Valid(reg) && "$trav" !in reg.registered
    requires !StartsWithDollar(k) && '.' !in k && !q.Arr?
    requires Compile(reg, q, Some(k)) == Ok(s)
    ensures CompileField(reg, Field(k, q)) == Ok(Expr(Some(k), Nested(s), Builtin(Trav)))
  {
    if TesterOf(reg, k).Some? {
      TesterOfDollar(reg, k);
    }
    assert ResolveOperator(reg, k) == Ok("$trav");
    BuiltinName("$trav");
    assert TesterOf(reg, "$trav") == Some(Builtin(Trav));
    NestedFieldCompiles(reg, Field(k, q), "$trav", Builtin(Trav), s);
  }

  /** A traversable operator on a key without a dot and a non-array operand
      compiles the operand under that key. */
  lemma NestedFieldCompiles(reg: Registry, f: Field, op: string, t: Tester, s: Stmt)
    requires Valid(reg)
    requires ResolveOperator(reg, f.key) == Ok(op) && op in reg.traversable && TesterOf(reg, op) == Some(t)
    requires '.' !in f.key && !f.val.Arr?
    requires Compile(reg, f.val, Some(f.key)) == Ok(s)
    ensures CompileField(reg, f) == Ok(Expr(Some(f.key), Nested(s), t))
  {
    NoDotKept(f);
  }

  /** A traversable operator on a key without a dot and an array operand
      compiles the array's elements. */
  lemma ListFieldCompiles(reg: Registry, f: Field, op: string, t: Tester, ss: seq<Stmt>)
    requires Valid(reg)
    requires ResolveOperator(reg, f.key) == Ok(op) && op in reg.traversable && TesterOf(reg, op) == Some(t)
    requires '.' !in f.key && f.val.Arr?
    requires CompileList(reg, f.val.elems) == Ok(ss)
    ensures CompileField(reg, f) == Ok(Expr(Some(f.key), NestedList(ss), t))
  {
    NoDotKept(f);
  }

  /** `$trav` with one sub-statement, on a datum that is not an array, tests
      the sub-statement against the property's value, or against undefined for
      a falsy datum. */
  lemma PropertyTraversal(h: Host, k: string, s: Stmt, d: Value)
    requires s.key == Some(k)
    requires !d.Arr?
    ensures EvalExpr(h, Expr(Some(k), Nested(s), Builtin(Trav)), d) ==
      Eval(h, s, if Truthy(d) then Get(d, k) else Undefined)
  {
    if d.Date? {
      // the datum is compared as its epoch, a number with no properties
      assert Comparable(d) == Num(d.epoch);
      assert Get(Num(d.epoch), k) == Undefined == Get(d, k);
    } else {
      assert Comparable(d) == d;
    }
  }

  /** A key without a dot is not rewritten. */
  lemma NoDotKept(f: Field)
    requires '.' !in f.key
    ensures Rewrite(f) == f
  {
    JoinSplit(f.key);
  }

  // ---------------------------------------------------------------------------
  // Dotted keys

  /** The value reached by reading the properties in `path` one after another. */
  function Follow(v: Value, path: seq<string>): Value
    decreases |path|
  {
    if |path| == 0 then v else Follow(Get(v, path[0]), path[1..])
  }

  /** `_convertDotToSubObject(parts, v)` is a chain of single-key objects along
      `parts` with `v` at its end. */
  lemma {:induction false} NestFollows(parts: seq<string>, v: Value)
    requires |parts| >= 1
    ensures Follow(Nest(parts, v), parts) == v
    ensures forall i :: 0 <= i < |parts| ==>
      var o := Follow(Nest(parts, v), parts[..i]);
      o.Obj? && |o.fields| == 1 && o.fields[0].key == parts[i]
  {
    var n := Nest(parts, v);
    var inner := if |parts| == 1 then v else Nest(parts[1..], v);
    assert Get(n, parts[0]) == inner;
    if |parts| > 1 {
      NestFollows(parts[1..], v);
      forall i | 0 <= i < |parts|
        ensures var o := Follow(n, parts[..i]);
          o.Obj? && |o.fields| == 1 && o.fields[0].key == parts[i]
      {
        if i > 0 {
          assert parts[..i][1..] == parts[1..][..i - 1];
          assert Follow(n, parts[..i]) == Follow(inner, parts[1..][..i - 1]);
        }
      }
    }
  }

  lemma {:induction false} SplitHead(s: string)
    ensures Split(s)[0] <= s
  {
    if |s| > 0 {
      SplitHead(s[1..]);
    }
  }

  /** A dotted property key means the nested object: `{"a.b.c": v}` compiles
      like `{a: {b: {c: v}}}`. */
  lemma DottedKey(reg: Registry, k: string, v: Value)
    requires Valid(reg)
    requires !StartsWithDollar(k) && '.' in k
    ensures var parts := Split(k);
      CompileField(reg, Field(k, v)) == CompileField(reg, Field(parts[0], Nest(parts[1..], v)))
  {
    var parts := Split(k);
    SplitHead(k);
    if TesterOf(reg, k).Some? {
      TesterOfDollar(reg, k);
    }
    if TesterOf(reg, parts[0]).Some? {
      TesterOfDollar(reg, parts[0]);
    }
    assert ResolveOperator(reg, k) == Ok("$trav");
    assert ResolveOperator(reg, parts[0]) == Ok("$trav");
    var g := Field(parts[0], Nest(parts[1..], v));
    NoDotKept(g);
    assert Rewrite(Field(k, v)) == g;
  }

  // ---------------------------------------------------------------------------
  // `$eq`, `$ne`

  /** The candidate `test` compares with: the datum after `_comparable`. */
  predicate LiteralMatches(lit: Value, d: Value) {
    var c := Comparable(d);
    var l := Comparable(lit);
    if c.Arr? then exists i :: 0 <= i < |c.elems| && StrictEq(c.elems[i], l)
    else StrictEq(l, c)
  }

  /** A prepared `$eq` literal (not a regular expression or a function) matches
      an array candidate iff it is one of its elements, and any other candidate
      iff the two are strictly equal. */
  lemma EqLiteral(h: Host, reg: Registry, key: Option<string>, lit: Value, d: Value)
    requires TesterOf(reg, "$eq") == Some(Builtin(Eq))
    requires !lit.Regex? && !lit.Fn?
    ensures EvalExpr(h, LiteralExpr(reg, "$eq", key, lit), d) == Ok(LiteralMatches(lit, d))
  {
    var c := Comparable(d);
    var l := Comparable(lit);
    assert !l.Regex? && !l.Fn?;
    var e := LiteralExpr(reg, "$eq", key, lit);
    assert e.operand == Prepared(MatchLit(l)) && e.tester == Builtin(Eq);
    assert EvalExpr(h, e, d) == Apply(h, Builtin(Eq), Prepared(MatchLit(l)), c, d);
    assert Apply(h, Builtin(Eq), Prepared(MatchLit(l)), c, d) == CallTest(h, Prepared(MatchLit(l)), c, TypeError);
    if c.Arr? {
      var r := IndexOf(c.elems, Comparable(lit));
      if r >= 0 {
        assert StrictEq(c.elems[r], Comparable(lit));
      }
    }
  }

  /** `$ne` on a literal is the negation of `$eq` on it: it holds exactly when
      `$eq` fails and throws exactly what `$eq` throws (only a function or
      regular expression literal, run by the host, can throw). */
  lemma NeLiteral(h: Host, reg: Registry, key: Option<string>, lit: Value, d: Value)
    requires TesterOf(reg, "$eq") == Some(Builtin(Eq)) && TesterOf(reg, "$ne") == Some(Builtin(Ne))
    ensures EvalExpr(h, LiteralExpr(reg, "$ne", key, lit), d) ==
      Negate(EvalExpr(h, LiteralExpr(reg, "$eq", key, lit), d))
    ensures !lit.Fn? && !lit.Regex? ==>
      EvalExpr(h, LiteralExpr(reg, "$ne", key, lit), d).Ok?
  {
    var m := Prepare(Comparable(lit));
    var ne := LiteralExpr(reg, "$ne", key, lit);
    var eq := LiteralExpr(reg, "$eq", key, lit);
    assert ne.operand == Prepared(m) && ne.tester == Builtin(Ne);
    assert eq.operand == Prepared(m) && eq.tester == Builtin(Eq);
    var c := Comparable(d);
    assert EvalExpr(h, eq, d) == Apply(h, Builtin(Eq), Prepared(m), c, d);
    assert EvalExpr(h, ne, d) == Apply(h, Builtin(Ne), Prepared(m), c, d);
    assert Apply(h, Builtin(Eq), Prepared(m), c, d) == CallTest(h, Prepared(m), c, TypeError);
    assert Apply(h, Builtin(Ne), Prepared(m), c, d) == Negate(CallTest(h, Prepared(m), c, TypeError));
  }

  /** An array literal under `$eq` never matches: `_comparable` copies it, and
      a copy is strictly equal to nothing. */
  lemma EqArrayLiteralNeverMatches(h: Host, reg: Registry, key: Option<string>, lit: Value, d: Value)
    requires TesterOf(reg, "$eq") == Some(Builtin(Eq))
    requires lit.Arr?
    ensures EvalExpr(h, LiteralExpr(reg, "$eq", key, lit), d) == Ok(false)
  {
    EqLiteral(h, reg, key, lit, d);
  }

  // ---------------------------------------------------------------------------
  // `$in`, `$nin`, `$all`

  /** Whether some element of `es` occurs in `xs`. */
  predicate Intersects(xs: seq<Value>, es: seq<Value>) {
    exists i, j :: 0 <= i < |es| && 0 <= j < |xs| && StrictEq(xs[j], es[i])
  }

  lemma {:induction false} InScanArray(a: Value, es: seq<Value>)
    requires a.Arr?
    ensures InScan(a, es) == Ok(Intersects(a.elems, es))
  {
    if |es| > 0 {
      var init := es[..|es| - 1];
      var x := es[|es| - 1];
      InScanArray(a, init);
      var r := IndexOf(a.elems, x);
      if r >= 0 {
        assert StrictEq(a.elems[r], es[|es| - 1]);
      } else if Intersects(a.elems, es) {
        var i, j :| 0 <= i < |es| && 0 <= j < |a.elems| && StrictEq(a.elems[j], es[i]);
        assert i < |es| - 1 && init[i] == es[i];
      }
    }
  }

  /** `$in` with an array operand holds on an array candidate iff some element
      of the candidate occurs in the operand, and on any other candidate iff
      the candidate does; `$nin` holds exactly when `$in` does not. */
  lemma InNinOnArrays(h: Host, xs: seq<Value>, id: Ref, b: Value, org: Value)
    ensures b.Arr? ==> Apply(h, Builtin(In), Plain(Arr(id, xs)), b, org) == Ok(Intersects(xs, b.elems))
    ensures !b.Arr? ==>
      Apply(h, Builtin(In), Plain(Arr(id, xs)), b, org) == Ok(exists j :: 0 <= j < |xs| && StrictEq(xs[j], b))
    ensures Apply(h, Builtin(Nin), Plain(Arr(id, xs)), b, org) ==
      Negate(Apply(h, Builtin(In), Plain(Arr(id, xs)), b, org))
  {
    if b.Arr? {
      InScanArray(Arr(id, xs), b.elems);
    } else {
      var r := IndexOf(xs, b);
      if r >= 0 {
        assert StrictEq(xs[r], b);
      }
    }
  }

  /** `$nin` is `!_testers.$in(a, b)` whatever the table holds under `$in`:
      the built-in membership test or a user's replacement, which then gets
      no raw datum. */
  lemma NinNegatesIn(h: Host, reg: Registry, a: Operand, b: Value, org: Value)
    requires "$nin" !in reg.registered
    ensures TesterOf(reg, "$nin").Some? && TesterOf(reg, "$in").Some?
    ensures Apply(h, TesterOf(reg, "$nin").value, a, b, org) ==
      Negate(Apply(h, TesterOf(reg, "$in").value, a, b, Undefined))
  {
  }

  /** `$all` with an object operand loops over the object's own `length` and
      reads its `"0"` … `"n-1"`: on an array candidate it holds iff each of
      them occurs in the candidate. */
  lemma AllObjectOperand(h: Host, a: Value, n: nat, b: Value, org: Value)
    requires a.Obj? && b.Arr?
    requires Get(a, "length") == Num(n)
    ensures Apply(h, Builtin(All), Plain(a), b, org) ==
      Ok(Covers(b.elems, seq(n, i requires 0 <= i < n => Get(a, NatToString(i)))))
  {
    var xs := seq(n, i requires 0 <= i < n => Get(a, NatToString(i)));
    ObjectElements(a, n);
    assert AllTest(a, b) == AllScan(xs, b);
    AllScanArray(xs, b);
  }

  lemma ObjectElements(a: Value, n: nat)
    requires a.Obj? && Get(a, "length") == Num(n)
    ensures Elements(a) == Ok(seq(n, i requires 0 <= i < n => Get(a, NatToString(i))))
  {
  }

  /** `$all` reads a falsy candidate as `[]`: an empty operand passes and any
      other array operand fails. */
  lemma AllFalsyCandidate(h: Host, xs: seq<Value>, id: Ref, b: Value, org: Value)
    requires !Truthy(b)
    ensures Apply(h, Builtin(All), Plain(Arr(id, xs)), b, org) == Ok(|xs| == 0)
  {
  }

  /** Whether every element of `xs` occurs in `es`. */
  predicate Covers(es: seq<Value>, xs: seq<Value>) {
    forall j :: 0 <= j < |xs| ==> exists i :: 0 <= i < |es| && StrictEq(es[i], xs[j])
  }

  lemma {:induction false} AllScanArray(xs: seq<Value>, c: Value)
    requires c.Arr?
    ensures AllScan(xs, c) == Ok(Covers(c.elems, xs))
  {
    if |xs| > 0 {
      var init := xs[..|xs| - 1];
      AllScanArray(init, c);
      var r := IndexOf(c.elems, xs[|xs| - 1]);
      if r >= 0 {
        assert StrictEq(c.elems[r], xs[|xs| - 1]);
        if Covers(c.elems, init) {
          forall j | 0 <= j < |xs|
            ensures exists i :: 0 <= i < |c.elems| && StrictEq(c.elems[i], xs[j])
          {
            if j < |xs| - 1 {
              assert init[j] == xs[j];
            }
          }
        } else {
          var j :| 0 <= j < |init| && !exists i :: 0 <= i < |c.elems| && StrictEq(c.elems[i], init[j]);
          assert init[j] == xs[j];
        }
      }
    }
  }

  /** `$all` on an array candidate holds iff every element of the operand
      occurs in the candidate. */
  lemma AllOnArrays(h: Host, xs: seq<Value>, id: Ref, b: Value, org: Value)
    requires b.Arr?
    ensures Apply(h, Builtin(All), Plain(Arr(id, xs)), b, org) == Ok(Covers(b.elems, xs))
  {
    AllScanArray(xs, b);
  }

  // ---------------------------------------------------------------------------
  // `$and`, `$or`, `$nor`, `$not`

  /** None of the sub-statements throws on `d`. */
  ghost predicate NoThrow(h: Host, ss: seq<Stmt>, d: Value) {
    forall i :: 0 <= i < |ss| ==> Eval(h, ss[i], d).Ok?
  }

  lemma {:induction false} AnyStmtExists(h: Host, ss: seq<Stmt>, d: Value)
    requires NoThrow(h, ss, d)
    ensures AnyStmt(h, ss, d) == Ok(exists i :: 0 <= i < |ss| && Eval(h, ss[i], d) == Ok(true))
  {
    if |ss| > 0 {
      var init := ss[..|ss| - 1];
      assert forall i :: 0 <= i < |init| ==> init[i] == ss[i];
      AnyStmtExists(h, init, d);
      if exists i :: 0 <= i < |ss| && Eval(h, ss[i], d) == Ok(true) {
        var i :| 0 <= i < |ss| && Eval(h, ss[i], d) == Ok(true);
        if i < |ss| - 1 {
          assert init[i] == ss[i];
        }
      }
    }
  }

  lemma {:induction false} AllStmtForall(h: Host, ss: seq<Stmt>, d: Value)
    requires NoThrow(h, ss, d)
    ensures AllStmt(h, ss, d) == Ok(forall i :: 0 <= i < |ss| ==> Eval(h, ss[i], d) == Ok(true))
  {
    if |ss| > 0 {
      var init := ss[..|ss| - 1];
      assert forall i :: 0 <= i < |init| ==> init[i] == ss[i];
      AllStmtForall(h, init, d);
    }
  }

  /** Over sub-statements that do not throw, `$and` is conjunction (an empty
      list passes). */
  lemma AndOperator(h: Host, ss: seq<Stmt>, b: Value, org: Value)
    requires NoThrow(h, ss, b)
    ensures Apply(h, Builtin(And), NestedList(ss), b, org) ==
      Ok(forall i :: 0 <= i < |ss| ==> Eval(h, ss[i], b) == Ok(true))
  {
    AllStmtForall(h, ss, b);
  }

  /** Over sub-statements that do not throw, `$or` is disjunction, except that
      an empty list passes. */
  lemma OrOperator(h: Host, ss: seq<Stmt>, b: Value, org: Value)
    requires NoThrow(h, ss, b)
    ensures Apply(h, Builtin(Or), NestedList(ss), b, org) ==
      Ok(|ss| == 0 || exists i :: 0 <= i < |ss| && Eval(h, ss[i], b) == Ok(true))
  {
    AnyStmtExists(h, ss, b);
  }

  /** Over sub-statements that do not throw, `$nor` holds iff every one of
      them fails. */
  lemma NorOperator(h: Host, ss: seq<Stmt>, b: Value, org: Value)
    requires NoThrow(h, ss, b)
    ensures Apply(h, Builtin(Nor), NestedList(ss), b, org) ==
      Ok(forall i :: 0 <= i < |ss| ==> Eval(h, ss[i], b) == Ok(false))
  {
    AnyStmtExists(h, ss, b);
    forall i | 0 <= i < |ss|
      ensures Eval(h, ss[i], b) != Ok(true) <==> Eval(h, ss[i], b) == Ok(false)
    {
      var r := Eval(h, ss[i], b);
      assert r.Ok?;
      if r.value {
        assert r == Ok(true);
      } else {
        assert r == Ok(false);
      }
    }
    assert Apply(h, Builtin(Nor), NestedList(ss), b, org) == Negate(AnyStmt(h, ss, b));
  }

  /** `parse` keeps one compiled statement per array element, last element
      first. */
  lemma {:induction false} CompileListReversed(reg: Registry, qs: seq<Value>, ss: seq<Stmt>)
    requires Valid(reg)
    requires CompileList(reg, qs) == Ok(ss)
    ensures |ss| == |qs|
    ensures forall i :: 0 <= i < |qs| ==> Compile(reg, qs[i], None) == Ok(ss[|qs| - 1 - i])
  {
    if |qs| > 0 {
      var init := qs[..|qs| - 1];
      var s := Compile(reg, qs[|qs| - 1], None).value;
      var rest := CompileList(reg, init).value;
      assert ss == [s] + rest;
      CompileListReversed(reg, init, rest);
      forall i | 0 <= i < |qs|
        ensures Compile(reg, qs[i], None) == Ok(ss[|qs| - 1 - i])
      {
        if i < |qs| - 1 {
          assert qs[i] == init[i];
        }
      }
    }
  }

  /** `{$and: [q1, …, qn]}` compiles to one `$and` expression over the
      compiled list. */
  lemma AndCompiles(reg: Registry, id: Ref, qs: seq<Value>, ss: seq<Stmt>)
    requires Valid(reg) && "$and" !in reg.registered
    requires CompileList(reg, qs) == Ok(ss)
    ensures CompileField(reg, Field("$and", Arr(id, qs))) == Ok(Expr(Some("$and"), NestedList(ss), Builtin(And)))
  {
    var f := Field("$and", Arr(id, qs));
    BuiltinName("$and");
    assert ResolveOperator(reg, "$and") == Ok("$and");
    assert TesterOf(reg, "$and") == Some(Builtin(And));
    assert KeepsShape(reg, "$and");
    ListFieldCompiles(reg, f, "$and", Builtin(And), ss);
  }

  /** `{$and: [q1, …, qn]}` holds iff every `qi` holds (when none throws). */
  lemma AndQuery(h: Host, reg: Registry, qs: seq<Value>, ss: seq<Stmt>, d: Value)
    requires Valid(reg)
    requires CompileList(reg, qs) == Ok(ss)
    requires NoThrow(h, ss, Comparable(d))
    ensures EvalExpr(h, Expr(Some("$and"), NestedList(ss), Builtin(And)), d) ==
      Ok(forall i :: 0 <= i < |qs| ==> Compile(reg, qs[i], None).Ok? && Eval(h, Compile(reg, qs[i], None).value, Comparable(d)) == Ok(true))
  {
    var c := Comparable(d);
    AndOperator(h, ss, c, d);
    assert EvalExpr(h, Expr(Some("$and"), NestedList(ss), Builtin(And)), d) == Apply(h, Builtin(And), NestedList(ss), c, d);
    CompileListReversed(reg, qs, ss);
    ReversedAllHold(h, reg, qs, ss, c);
  }

  lemma ReversedAllHold(h: Host, reg: Registry, qs: seq<Value>, ss: seq<Stmt>, c: Value)
    requires Valid(reg)
    requires |ss| == |qs|
    requires forall i :: 0 <= i < |qs| ==> Compile(reg, qs[i], None) == Ok(ss[|qs| - 1 - i])
    ensures (forall i :: 0 <= i < |ss| ==> Eval(h, ss[i], c) == Ok(true)) <==>
      (forall i :: 0 <= i < |qs| ==> Compile(reg, qs[i], None).Ok? && Eval(h, Compile(reg, qs[i], None).value, c) == Ok(true))
  {
    if forall i :: 0 <= i < |ss| ==> Eval(h, ss[i], c) == Ok(true) {
      forall i | 0 <= i < |qs|
        ensures Compile(reg, qs[i], None).Ok? && Eval(h, Compile(reg, qs[i], None).value, c) == Ok(true)
      {
        assert Compile(reg, qs[i], None) == Ok(ss[|qs| - 1 - i]);
      }
    } else {
      var i :| 0 <= i < |ss| && Eval(h, ss[i], c) != Ok(true);
      assert Compile(reg, qs[|qs| - 1 - i], None) == Ok(ss[i]);
    }
  }

  /** `{$not: q}` compiles to one `$not` expression over `q`, compiled under
      the key `$not`. */
  lemma NotCompiles(reg: Registry, q: Value, s: Stmt)
    requires Valid(reg) && "$not" !in reg.registered
    requires !q.Arr? && Compile(reg, q, Some("$not")) == Ok(s)
    ensures CompileField(reg, Field("$not", q)) == Ok(Expr(Some("$not"), Nested(s), Builtin(Not)))
  {
    BuiltinName("$not");
    assert ResolveOperator(reg, "$not") == Ok("$not");
    assert TesterOf(reg, "$not") == Some(Builtin(Not));
    assert KeepsShape(reg, "$not");
    NestedFieldCompiles(reg, Field("$not", q), "$not", Builtin(Not), s);
  }

  /** `$not` negates what its sub-statement says of the normalised datum, and
      passes on what it throws. */
  lemma NotQuery(h: Host, s: Stmt, d: Value)
    ensures EvalExpr(h, Expr(Some("$not"), Nested(s), Builtin(Not)), d) == Negate(Eval(h, s, Comparable(d)))
  {
    var c := Comparable(d);
    assert EvalExpr(h, Expr(Some("$not"), Nested(s), Builtin(Not)), d) == Apply(h, Builtin(Not), Nested(s), c, d);
    assert Apply(h, Builtin(Not), Nested(s), c, d) == Negate(CallTest(h, Nested(s), c, NotAnExpression));
  }

  // ---------------------------------------------------------------------------
  // `$trav` and `$exists`

  /** The property a traversal reads, and whether an array element supplies a
      value for it that satisfies the sub-statement. */
  ghost predicate ElementMatches(h: Host, s: Stmt, e: Value) {
    var v := Get(e, KeyName(s.key));
    Truthy(v) && Eval(h, s, v) == Ok(true)
  }

  /** `$trav` over an array datum (no null elements, no exceptions) holds iff
      some element has a truthy property value that satisfies the sub-statement. */
  lemma {:induction false} TravOverArray(h: Host, s: Stmt, es: seq<Value>)
    requires forall i :: 0 <= i < |es| ==> !es[i].IsNullish()
    requires forall i :: 0 <= i < |es| ==> Eval(h, s, Get(es[i], KeyName(s.key))).Ok?
    ensures TravScan(h, s, es) == Ok(exists i :: 0 <= i < |es| && ElementMatches(h, s, es[i]))
  {
    if |es| > 0 {
      var init := es[..|es| - 1];
      assert forall i :: 0 <= i < |init| ==> init[i] == es[i];
      TravOverArray(h, s, init);
      if exists i :: 0 <= i < |es| && ElementMatches(h, s, es[i]) {
        var i :| 0 <= i < |es| && ElementMatches(h, s, es[i]);
        if i < |es| - 1 {
          assert init[i] == es[i];
        }
      }
    }
  }

  /** The compiled form of `{f: {$exists: t}}` in a table where `$exists` and
      `$trav` are the built-ins. */
  lemma ExistsQueryCompiles(reg: Registry, t: bool)
    requires Valid(reg) && "$exists" !in reg.registered && "$trav" !in reg.registered
    ensures var q := Obj(At(0), [Field("f", Obj(At(1), [Field("$exists", Bool(t))]))]);
      Compile(reg, q, None) == Ok(ExistsStmt(t))
  {
    var inner := Obj(At(1), [Field("$exists", Bool(t))]);
    var q := Obj(At(0), [Field("f", inner)]);
    PropertyFieldCompiles(reg, t);
    SingleField(reg, Field("f", inner));
    assert CompileFields(reg, q.fields) == Ok(ExistsStmt(t).exprs);
  }

  lemma PropertyFieldCompiles(reg: Registry, t: bool)
    requires Valid(reg) && "$exists" !in reg.registered && "$trav" !in reg.registered
    ensures CompileField(reg, Field("f", Obj(At(1), [Field("$exists", Bool(t))]))) == Ok(ExistsStmt(t).exprs[0])
  {
    var inner := Obj(At(1), [Field("$exists", Bool(t))]);
    var sub := ExistsStmt(t).exprs[0].operand.s;
    ExistsFieldCompiles(reg, t);
    assert Compile(reg, inner, Some("f")) == Ok(sub) by {
      assert Truthy(inner) && inner.Obj?;
    }
    assert "f"[0] == 'f';
    PropertyCompiles(reg, "f", inner, sub);
  }

  lemma ExistsFieldCompiles(reg: Registry, t: bool)
    requires Valid(reg) && "$exists" !in reg.registered
    ensures CompileFields(reg, [Field("$exists", Bool(t))]) ==
      Ok([Expr(Some("$exists"), Plain(Bool(t)), Builtin(Exists))])
  {
    BuiltinName("$exists");
    assert ResolveOperator(reg, "$exists") == Ok("$exists");
    assert TesterOf(reg, "$exists") == Some(Builtin(Exists));
    assert KeepsShape(reg, "$exists");
    assert CompileField(reg, Field("$exists", Bool(t))) == Ok(Expr(Some("$exists"), Plain(Bool(t)), Builtin(Exists)));
    SingleField(reg, Field("$exists", Bool(t)));
  }

  /** An object with one key compiles to that key's expression alone. */
  lemma SingleField(reg: Registry, f: Field)
    requires Valid(reg)
    ensures CompileField(reg, f).Ok? ==> CompileFields(reg, [f]) == Ok([CompileField(reg, f).value])
    ensures CompileField(reg, f).Throws? ==> CompileFields(reg, [f]) == Throws(CompileField(reg, f).fault)
  {
    assert [f][0] == f && [f][1..] == [];
    assert CompileFields(reg, [f][1..]) == Ok([]);
    if CompileField(reg, f).Ok? {
      var e := CompileField(reg, f).value;
      assert [e] + [] == [e];
      assert CompileFields(reg, [f]) == Prepend([e], Ok([]));
    }
  }

  function ExistsStmt(t: bool): Stmt {
    Stmt([Expr(Some("f"), Nested(Stmt([Expr(Some("$exists"), Plain(Bool(t)), Builtin(Exists))], Some("f"))),
               Builtin(Trav))], None)
  }

  /** A statement of one expression means that expression. */
  lemma SingleExpr(h: Host, e: Expr, k: Option<string>, d: Value)
    ensures Eval(h, Stmt([e], k), d) == EvalExpr(h, e, d)
  {
    assert [e][0] == e && [e][1..] == [];
    assert Eval(h, Stmt([e], k), d) == EvalExprs(h, [e], d);
    if EvalExpr(h, e, d) == Ok(true) {
      assert EvalExprs(h, [e], d) == EvalExprs(h, [], d);
    }
  }

  /** `{f: {$exists: t}}` (see `ExistsQueryCompiles`) on an object holds iff
      `t` says whether `f` holds something other than null or undefined; so
      `{f: {$exists: false}}` matches an object without `f`: `$trav` keeps
      going with undefined when the property is missing. */
  lemma ExistsOnField(h: Host, t: bool, id: Ref, fs: seq<Field>)
    ensures Eval(h, ExistsStmt(t), Obj(id, fs)) == Ok(t == !Lookup(fs, "f").IsNullish())
  {
    var trav := ExistsStmt(t).exprs[0];
    var sub := trav.operand.s;
    var d := Obj(id, fs);
    var v := Lookup(fs, "f");
    SingleExpr(h, trav, None, d);
    assert EvalExpr(h, trav, d) == Apply(h, Builtin(Trav), Nested(sub), d, d);
    assert Get(d, "f") == v;
    assert Apply(h, Builtin(Trav), Nested(sub), d, d) == Eval(h, sub, v);
    SingleExpr(h, sub.exprs[0], Some("f"), v);
    assert EvalExpr(h, sub.exprs[0], v) == Apply(h, Builtin(Exists), Plain(Bool(t)), Comparable(v), v);
    assert Comparable(v).IsNullish() == v.IsNullish();
  }

  // ---------------------------------------------------------------------------
  // Shape of compiled statements

  /** Built-in value testers get a literal (`$eq`/`$ne` a prepared one) and the
      structural ones a query; every nested query is well shaped as well. */
  ghost predicate WellShapedStmt(s: Stmt)
    decreases s, 1
  {
    forall i :: 0 <= i < |s.exprs| ==> WellShapedExpr(s.exprs[i])
  }

  ghost predicate WellShapedExpr(e: Expr)
    decreases e, 0
  {
    && (e.tester.Builtin? ==>
          if e.tester.op == Eq || e.tester.op == Ne then e.operand.Prepared?
          else if IsStructural(e.tester.op) then e.operand.Nested? || e.operand.NestedList?
          else e.operand.Plain?)
    && (e.operand.Nested? ==> WellShapedStmt(e.operand.s))
    && (e.operand.NestedList? ==> forall j :: 0 <= j < |e.operand.ss| ==> WellShapedStmt(e.operand.ss[j]))
  }

  lemma LiteralWellShaped(reg: Registry, op: string, key: Option<string>, v: Value)
    requires Valid(reg) && TesterOf(reg, op).Some? && op !in reg.traversable
    ensures WellShapedExpr(LiteralExpr(reg, op, key, v))
  {
    if op !in reg.registered {
      BuiltinName(op);
    }
    assert KeepsShape(reg, op);
  }

  lemma {:induction false} CompiledWellShaped(reg: Registry, q: Value, key: Option<string>)
    requires Valid(reg)
    requires Compile(reg, q, key).Ok?
    ensures WellShapedStmt(Compile(reg, q, key).value)
    decreases QuerySize(q), 2
  {
    FallbacksPresent(reg);
    if !Truthy(q) || !q.Obj? {
      LiteralWellShaped(reg, "$eq", if Truthy(q) then key else Some("$eq"), q);
    } else {
      FieldsWellShaped(reg, q.fields);
    }
  }

  lemma {:induction false} FieldsWellShaped(reg: Registry, fs: seq<Field>)
    requires Valid(reg)
    requires CompileFields(reg, fs).Ok?
    ensures forall i :: 0 <= i < |CompileFields(reg, fs).value| ==> WellShapedExpr(CompileFields(reg, fs).value[i])
    decreases FieldsSize(fs), 1
  {
    if |fs| > 0 {
      FieldWellShaped(reg, fs[0]);
      FieldsWellShaped(reg, fs[1..]);
    }
  }

  lemma {:induction false} FieldWellShaped(reg: Registry, f: Field)
    requires Valid(reg)
    requires CompileField(reg, f).Ok?
    ensures WellShapedExpr(CompileField(reg, f).value)
    decreases FieldSize(f), 0
  {
    var op := ResolveOperator(reg, f.key).value;
    if op in reg.traversable {
      if op !in reg.registered {
        BuiltinName(op);
      }
      assert KeepsShape(reg, op);
      var g := Rewrite(f);
      if g.val.Arr? {
        ListWellShaped(reg, g.val.elems);
      } else {
        CompiledWellShaped(reg, g.val, Some(g.key));
      }
    } else {
      LiteralWellShaped(reg, op, Some(f.key), f.val);
    }
  }

  lemma {:induction false} ListWellShaped(reg: Registry, es: seq<Value>)
    requires Valid(reg)
    requires CompileList(reg, es).Ok?
    ensures forall j :: 0 <= j < |CompileList(reg, es).value| ==> WellShapedStmt(CompileList(reg, es).value[j])
    decreases ListSize(es), 3
  {
    if |es| > 0 {
      CompiledWellShaped(reg, es[|es| - 1], None);
      ListWellShaped(reg, es[..|es| - 1]);
    }
  }

  // ---------------------------------------------------------------------------
  // Size and modulus

  /** `$size: n` holds on an array or a string exactly when its length is `n`,
      and never on a falsy value. */
  lemma SizeQuery(h: Host, n: int, b: Value, org: Value)
    ensures b.Arr? ==> Apply(h, Builtin(Size), Plain(Num(n)), b, org) == Ok(n == |b.elems|)
    ensures b.Str? && b.s != "" ==> Apply(h, Builtin(Size), Plain(Num(n)), b, org) == Ok(n == |b.s|)
    ensures !Truthy(b) ==> Apply(h, Builtin(Size), Plain(Num(n)), b, org) == Ok(false)
  {
  }

  /** `$mod: [m, k]` holds on a number `x` exactly when `m` is not 0 and the
      truncating remainder of `x` by `m` is `k`; it never holds on undefined
      (`undefined % m` is NaN), and a null or undefined operand throws. */
  lemma ModQuery(h: Host, id: Ref, m: int, k: int, b: Value, org: Value)
    ensures b.Num? ==>
      Apply(h, Builtin(Mod), Plain(Arr(id, [Num(m), Num(k)])), b, org) == Ok(m != 0 && TruncRem(b.n, m) == k)
    ensures b.Undefined? ==>
      Apply(h, Builtin(Mod), Plain(Arr(id, [Num(m), Num(k)])), b, org) == Ok(false)
    ensures forall a: Value :: a.IsNullish() ==> Apply(h, Builtin(Mod), Plain(a), b, org) == Throws(TypeError)
  {
    var a := Arr(id, [Num(m), Num(k)]);
    GetIndex(a, 0);
    GetIndex(a, 1);
    assert NatToString(0) == "0" && NatToString(1) == "1";
  }
}
