/**
  What lib/stmt.js's builder and tester promise: `test` is the conjunction of
  the expressions, so sorting them by weight changes nothing while no
  expression throws; the statement's weight is the sum of its expressions';
  and the operators behave as their testers say, including the keys that
  the weight table leaves out.
*/
module StmtLaws {
  import opened JsValue
  import opened StmtTree
  import opened StmtOrder
  import opened StmtEval
  import opened StmtBuild
  import SiftEval
  import SiftLaws

  // ---------------------------------------------------------------------------
  // `test` is a conjunction, in any order

  /** No expression throws on the datum. */
  predicate NoThrow(es: seq<WExpr>, d: Value) {
    forall e :: e in es ==> Passes(e, d).Ok?
  }

  /** Every expression accepts the datum. */
  predicate AllPass(es: seq<WExpr>, d: Value) {
    forall e :: e in es ==> Passes(e, d) == Ok(true)
  }

  /** When nothing throws, `test` holds iff every expression does. */
  lemma {:induction false} HoldsAllIsConjunction(es: seq<WExpr>, d: Value)
    requires NoThrow(es, d)
    ensures HoldsAll(es, d) == Ok(AllPass(es, d))
  {
    if |es| > 0 {
      var init := es[..|es| - 1];
      var last := es[|es| - 1];
      assert es == init + [last];
      assert NoThrow(init, d) by {
        forall e | e in init ensures Passes(e, d).Ok? { assert e in es; }
      }
      HoldsAllIsConjunction(init, d);
      assert last in es;
      var r := Passes(last, d);
      if r.value {
        assert r == Ok(true);
      } else {
        assert r == Ok(false);
      }
    }
  }

  /** Sorting the expressions by weight does not change what `test` says
      about a datum on which none of them throws. */
  /** `test` runs the expressions from the last: the first one, counting from
      the end, that is not satisfied decides the statement's outcome (false,
      or the exception it throws), whatever comes before it. */
  lemma {:induction false} HoldsAllStopsAtFirstFailure(es: seq<WExpr>, d: Value, i: nat)
    requires i < |es|
    requires forall j :: i < j < |es| ==> Passes(es[j], d) == Ok(true)
    requires Passes(es[i], d) != Ok(true)
    ensures HoldsAll(es, d) == Passes(es[i], d)
  {
    if i < |es| - 1 {
      var init := es[..|es| - 1];
      assert Passes(es[|es| - 1], d) == Ok(true);
      assert forall j :: i < j < |init| ==> init[j] == es[j];
      HoldsAllStopsAtFirstFailure(init, d, i);
    }
  }

  lemma ReorderHolds(es: seq<WExpr>, d: Value)
    requires NoThrow(es, d)
    ensures HoldsAll(Ordered(es, ExprWeight), d) == HoldsAll(es, d)
  {
    var os := Ordered(es, ExprWeight);
    OrderedPermutes(es, ExprWeight);
    forall e ensures e in os <==> e in es {
      assert e in os <==> e in multiset(os);
      assert e in es <==> e in multiset(es);
    }
    HoldsAllIsConjunction(es, d);
    HoldsAllIsConjunction(os, d);
  }

  /** A parsed statement accepts a datum iff every expression its keys give
      accepts it, provided none throws. */
  lemma BuiltHolds(v: Value, key: Option<string>, d: Value)
    requires NoThrow(Exprs(v), d)
    ensures Holds(Build(v, key), d) == Ok(AllPass(Exprs(v), d))
  {
    ReorderHolds(Exprs(v), d);
    HoldsAllIsConjunction(Exprs(v), d);
  }

  /** A statement that is not an object is an `$eq` test against itself. */
  lemma ScalarStatement(v: Value, key: Option<string>, d: Value)
    requires !IsObject(v)
    ensures Holds(Build(v, key), d) == Ok(StrictEq(v, Comparable(d)))
  {
    var e := GetExpr(Eq, None, Lit(v));
    assert Exprs(v) == [e];
    assert [e][..0] == [];
    assert Ordered([e], ExprWeight) == InsertBack([], e, ExprWeight) == [e];
    assert Build(v, key).exprs == [e];
    assert Comparable(v) == v;
    assert Passes(e, d) == Ok(StrictEq(v, Comparable(d)));
    assert HoldsAll([e][..0], d) == Ok(true);
  }

  // ---------------------------------------------------------------------------
  // Weights

  /** The statement's weight is the sum of its expressions' weights, the
      expressions are those its keys give, and with numeric weights they are
      sorted heaviest first, so that `test` runs the lightest first. */
  lemma BuiltWeight(v: Value, key: Option<string>)
    ensures Build(v, key).w == SumW(Build(v, key).exprs, ExprWeight)
    ensures multiset(Build(v, key).exprs) == multiset(Exprs(v))
    ensures Numeric(Exprs(v), ExprWeight) ==> NonIncreasing(Build(v, key).exprs, ExprWeight)
  {
    OrderedSum(Exprs(v), ExprWeight);
    OrderedPermutes(Exprs(v), ExprWeight);
    if Numeric(Exprs(v), ExprWeight) {
      OrderedSorted(Exprs(v), ExprWeight);
    }
  }

  /** An array weighs NaN iff one of its elements does. */
  lemma {:induction false} ArrayWeightNaN(es: seq<Value>)
    ensures ArrayWeight(es).NaN? <==> exists i :: 0 <= i < |es| && ValueWeight(es[i]).NaN?
  {
    if |es| > 0 {
      var rest := es[1..];
      ArrayWeightNaN(rest);
      if exists i :: 0 <= i < |rest| && ValueWeight(rest[i]).NaN? {
        var i :| 0 <= i < |rest| && ValueWeight(rest[i]).NaN?;
        assert rest[i] == es[i + 1];
      }
      if exists i :: 0 <= i < |es| && ValueWeight(es[i]).NaN? {
        var i :| 0 <= i < |es| && ValueWeight(es[i]).NaN?;
        if i > 0 {
          assert rest[i - 1] == es[i];
        }
      }
    }
  }

  /** Between two expressions whose operands weigh less than 100 apart, the
      weight factor alone decides which runs first. */
  lemma FactorDominates(op1: WOp, k1: Option<string>, a1: WOperand, op2: WOp, k2: Option<string>, a2: WOperand)
    requires Factor(op1).Some? && Factor(op2).Some? && Factor(op1).value < Factor(op2).value
    requires OperandWeight(a1).W? && OperandWeight(a2).W?
    requires OperandWeight(a1).n < OperandWeight(a2).n + 100
    ensures Below(GetExpr(op1, k1, a1).w, GetExpr(op2, k2, a2).w)
  {
  }

  // ---------------------------------------------------------------------------
  // What `parse` produces

  /** An expression whose tester fits its operand: the operator has a weight
      factor, and it is given a literal iff it is not traversable. */
  predicate Shaped(e: WExpr) {
    Factor(e.t).Some? && (e.v.Lit? <==> !Traversable(e.t))
  }

  /** Every expression of a parsed statement is shaped, so the TypeError
      `Literal` reports for a non-literal operand never arises from `parse`. */
  lemma BuiltWellShaped(v: Value, key: Option<string>)
    ensures forall e :: e in Build(v, key).exprs ==> Shaped(e)
  {
    var es := Exprs(v);
    OrderedPermutes(es, ExprWeight);
    ExprsShaped(v);
    forall e | e in Build(v, key).exprs ensures Shaped(e) {
      assert e in multiset(es);
    }
  }

  lemma ExprsShaped(v: Value)
    ensures forall e :: e in Exprs(v) ==> Shaped(e)
  {
    match v
    case Obj(_, fs) => FieldsShaped(fs);
    case Arr(_, elems) => IndexShaped(elems);
    case _ =>
  }

  lemma {:induction false} FieldsShaped(fs: seq<Field>)
    ensures forall e :: e in FieldsExprs(fs) ==> Shaped(e)
  {
    if |fs| > 0 {
      FieldsShaped(fs[..|fs| - 1]);
      FieldShaped(fs[|fs| - 1].key, fs[|fs| - 1].val);
    }
  }

  lemma {:induction false} IndexShaped(elems: seq<Value>)
    ensures forall e :: e in IndexExprs(elems) ==> Shaped(e)
  {
    if |elems| > 0 {
      IndexShaped(elems[..|elems| - 1]);
      FieldShaped(NatToString(|elems| - 1), elems[|elems| - 1]);
    }
  }

  lemma FieldShaped(k: string, value: Value)
    ensures Shaped(FieldExpr(k, value))
  {
  }

  /** How `parse` reads the keys: `$lte`, `$gte` and `$mod` have testers but
      are not in the weight table, so they are properties to traverse. */
  lemma OperatorTable()
    ensures Resolve("$lte") == Trav && Resolve("$gte") == Trav && Resolve("$mod") == Trav
  {
  }

  /** The operator keys the laws below use. */
  lemma KnownOperators()
    ensures Resolve("$or") == Or && Resolve("$and") == And && Resolve("$nor") == Nor
    ensures Resolve("$in") == In && Resolve("$nin") == Nin
  {
  }

  /** `$nor` is in the weight table but has no tester: testing it throws. */
  lemma NorThrows(value: Value, d: Value)
    ensures Passes(FieldExpr("$nor", value), d) == Throws(TypeError)
  {
    KnownOperators();
  }

  /** A property key: against a falsy datum it fails; otherwise the value's
      statement is tested on the property; an array value, which parses to
      a list of statements, throws. */
  lemma PropertyQuery(k: string, value: Value, d: Value)
    requires Resolve(k) == Trav
    ensures !Truthy(Comparable(d)) ==> Passes(FieldExpr(k, value), d) == Ok(false)
    ensures Truthy(Comparable(d)) && !value.Arr? ==>
      Passes(FieldExpr(k, value), d) == Holds(Build(value, Some(k)), Get(Comparable(d), k))
    ensures Truthy(Comparable(d)) && value.Arr? ==> Passes(FieldExpr(k, value), d) == Throws(TypeError)
  {
  }

  /** `$exists: t` holds iff the datum's truthiness is `t`. */
  lemma ExistsQuery(t: bool, d: Value)
    ensures Passes(FieldExpr("$exists", Bool(t)), d) == Ok(t == Truthy(Comparable(d)))
  {
  }

  /** `$in` and `$nin` with an array: against an array datum, whether the two
      share an element; against anything else, whether the array holds it;
      `$nin` is the negation. */
  lemma InQuery(id: Ref, xs: seq<Value>, d: Value)
    ensures Comparable(d).Arr? ==>
      Passes(FieldExpr("$in", Arr(id, xs)), d) == Ok(SiftLaws.Intersects(xs, Comparable(d).elems))
    ensures !Comparable(d).Arr? ==>
      Passes(FieldExpr("$in", Arr(id, xs)), d) == Ok(exists j :: 0 <= j < |xs| && StrictEq(xs[j], Comparable(d)))
    ensures Passes(FieldExpr("$nin", Arr(id, xs)), d) == SiftEval.Negate(Passes(FieldExpr("$in", Arr(id, xs)), d))
  {
    var b := Comparable(d);
    InOperand(id, xs, d);
    if b.Arr? {
      SiftLaws.InScanArray(Arr(id, xs), b.elems);
    }
  }

  /** `$in`/`$nin` with an array run the membership tester on the array. */
  lemma InOperand(id: Ref, xs: seq<Value>, d: Value)
    ensures Passes(FieldExpr("$in", Arr(id, xs)), d) == SiftEval.InTest(Arr(id, xs), Comparable(d))
    ensures Passes(FieldExpr("$nin", Arr(id, xs)), d) == SiftEval.Negate(SiftEval.InTest(Arr(id, xs), Comparable(d)))
  {
    KnownOperators();
  }

  /** `$all` with an array parses its elements to statements, which no array
      datum contains: it holds on an array datum only when the list is
      empty. */
  lemma AllQuery(id: Ref, es: seq<Value>, d: Value)
    requires Comparable(d).Arr?
    ensures Passes(FieldExpr("$all", Arr(id, es)), d) == Ok(|es| == 0)
  {
    var ss := Ordered(BuildList(es), StmtWeight);
    AllFoundOnArray(ss, Comparable(d));
  }

  lemma AllFoundOnArray(ss: seq<WStmt>, b: Value)
    requires b.Arr?
    ensures AllFound(ss, b) == Ok(|ss| == 0)
  {
  }

  // ---------------------------------------------------------------------------
  // `$or` and `$and` over an array of statements

  /** The list `$or`/`$and` get holds the elements' statements, last first. */
  lemma {:induction false} BuildListAt(elems: seq<Value>, j: nat)
    requires j < |elems|
    ensures BuildList(elems)[j] == Build(elems[|elems| - 1 - j], None)
  {
    if j > 0 {
      var init := elems[..|elems| - 1];
      BuildListAt(init, j - 1);
      assert init[|init| - 1 - (j - 1)] == elems[|elems| - 1 - j];
    }
  }

  /** Each element's statement is in the list. */
  lemma ElementListed(elems: seq<Value>, i: nat)
    requires i < |elems|
    ensures Build(elems[i], None) in BuildList(elems)
  {
    var j := |elems| - 1 - i;
    BuildListAt(elems, j);
    var bl := BuildList(elems);
    assert |elems| - 1 - j == i;
    assert bl[j] == Build(elems[i], None);
    InAt(bl, j);
  }

  lemma InAt<T>(xs: seq<T>, j: nat)
    requires j < |xs|
    ensures xs[j] in xs
  {
  }

  lemma ListedAt(elems: seq<Value>, s: WStmt)
    requires s in BuildList(elems)
    ensures exists j :: 0 <= j < |elems| && BuildList(elems)[j] == s
  {
  }

  lemma ListedAtHolds(elems: seq<Value>, j: nat, b: Value)
    requires j < |elems|
    ensures exists i :: 0 <= i < |elems| && Holds(BuildList(elems)[j], b) == Holds(Build(elems[i], None), b)
  {
    BuildListAt(elems, j);
    var i := |elems| - 1 - j;
    assert Holds(BuildList(elems)[j], b) == Holds(Build(elems[i], None), b);
  }

  /** Each statement in the list tests as some element's statement does. */
  lemma ListedHolds(elems: seq<Value>, s: WStmt, b: Value)
    requires s in BuildList(elems)
    ensures exists i :: 0 <= i < |elems| && Holds(s, b) == Holds(Build(elems[i], None), b)
  {
    ListedAt(elems, s);
    var j :| 0 <= j < |elems| && BuildList(elems)[j] == s;
    ListedAtHolds(elems, j, b);
  }

  /** No statement of the list throws on the datum. */
  predicate NoneThrows(ss: seq<WStmt>, d: Value) {
    forall s :: s in ss ==> Holds(s, d).Ok?
  }

  /** The `$or` loop: when nothing throws, some statement holds. */
  lemma {:induction false} AnyHoldsIsDisjunction(ss: seq<WStmt>, d: Value)
    requires NoneThrows(ss, d)
    ensures AnyHolds(ss, d) == Ok(exists s :: s in ss && Holds(s, d) == Ok(true))
  {
    if |ss| > 0 {
      var init := ss[..|ss| - 1];
      var last := ss[|ss| - 1];
      assert ss == init + [last];
      assert NoneThrows(init, d) by {
        forall s | s in init ensures Holds(s, d).Ok? { assert s in ss; }
      }
      AnyHoldsIsDisjunction(init, d);
      assert last in ss;
      var r := Holds(last, d);
      if r.value {
        assert r == Ok(true);
      } else {
        assert r == Ok(false);
      }
    }
  }

  /** The `$and` loop: when nothing throws, every statement holds. */
  lemma {:induction false} AllHoldIsConjunction(ss: seq<WStmt>, d: Value)
    requires NoneThrows(ss, d)
    ensures AllHold(ss, d) == Ok(forall s :: s in ss ==> Holds(s, d) == Ok(true))
  {
    if |ss| > 0 {
      var init := ss[..|ss| - 1];
      var last := ss[|ss| - 1];
      assert ss == init + [last];
      assert NoneThrows(init, d) by {
        forall s | s in init ensures Holds(s, d).Ok? { assert s in ss; }
      }
      AllHoldIsConjunction(init, d);
      assert last in ss;
      var r := Holds(last, d);
      if r.value {
        assert r == Ok(true);
      } else {
        assert r == Ok(false);
      }
    }
  }

  /** Sorting a list of statements keeps its members. */
  lemma SortedMembers(ss: seq<WStmt>, s: WStmt)
    ensures s in Ordered(ss, StmtWeight) <==> s in ss
  {
    OrderedPermutes(ss, StmtWeight);
    assert s in Ordered(ss, StmtWeight) <==> s in multiset(Ordered(ss, StmtWeight));
    assert s in ss <==> s in multiset(ss);
  }

  /** No element's statement throws on the datum. */
  predicate ElementsTotal(elems: seq<Value>, b: Value) {
    forall i :: 0 <= i < |elems| ==> Holds(Build(elems[i], None), b).Ok?
  }

  /** `$or: [...]` runs the `$or` loop over the sorted statements. */
  lemma OrOperand(id: Ref, elems: seq<Value>, d: Value)
    ensures Passes(FieldExpr("$or", Arr(id, elems)), d) == AnyHolds(Ordered(BuildList(elems), StmtWeight), Comparable(d))
  {
    KnownOperators();
  }

  /** `$and: [...]` runs the `$and` loop over the sorted statements. */
  lemma AndOperand(id: Ref, elems: seq<Value>, d: Value)
    ensures Passes(FieldExpr("$and", Arr(id, elems)), d) == AllHold(Ordered(BuildList(elems), StmtWeight), Comparable(d))
  {
    KnownOperators();
  }

  /** Some element's statement holds on the datum. */
  predicate SomeHolds(elems: seq<Value>, b: Value) {
    exists i :: 0 <= i < |elems| && Holds(Build(elems[i], None), b) == Ok(true)
  }

  /** Every element's statement holds on the datum. */
  predicate EveryHolds(elems: seq<Value>, b: Value) {
    forall i :: 0 <= i < |elems| ==> Holds(Build(elems[i], None), b) == Ok(true)
  }

  lemma SortedListTotal(elems: seq<Value>, b: Value)
    requires ElementsTotal(elems, b)
    ensures NoneThrows(Ordered(BuildList(elems), StmtWeight), b)
  {
    forall s | s in Ordered(BuildList(elems), StmtWeight) ensures Holds(s, b).Ok? {
      SortedMembers(BuildList(elems), s);
      ListedHolds(elems, s, b);
    }
  }

  /** `$or: [q0, q1, ...]` holds iff some `qi` does (false for an empty list). */
  lemma OrQuery(id: Ref, elems: seq<Value>, d: Value)
    requires ElementsTotal(elems, Comparable(d))
    ensures Passes(FieldExpr("$or", Arr(id, elems)), d) == Ok(SomeHolds(elems, Comparable(d)))
  {
    var b := Comparable(d);
    var ss := Ordered(BuildList(elems), StmtWeight);
    OrOperand(id, elems, d);
    SortedListTotal(elems, b);
    AnyHoldsIsDisjunction(ss, b);
    if SomeHolds(elems, b) {
      var i :| 0 <= i < |elems| && Holds(Build(elems[i], None), b) == Ok(true);
      ElementListed(elems, i);
      SortedMembers(BuildList(elems), Build(elems[i], None));
    } else {
      forall s | s in ss ensures Holds(s, b) != Ok(true) {
        SortedMembers(BuildList(elems), s);
        ListedHolds(elems, s, b);
      }
    }
  }

  /** `$and: [q0, q1, ...]` holds iff every `qi` does (true for an empty list). */
  lemma AndQuery(id: Ref, elems: seq<Value>, d: Value)
    requires ElementsTotal(elems, Comparable(d))
    ensures Passes(FieldExpr("$and", Arr(id, elems)), d) == Ok(EveryHolds(elems, Comparable(d)))
  {
    var b := Comparable(d);
    var ss := Ordered(BuildList(elems), StmtWeight);
    AndOperand(id, elems, d);
    SortedListTotal(elems, b);
    AllHoldIsConjunction(ss, b);
    if EveryHolds(elems, b) {
      forall s | s in ss ensures Holds(s, b) == Ok(true) {
        SortedMembers(BuildList(elems), s);
        ListedHolds(elems, s, b);
      }
    } else {
      var i :| 0 <= i < |elems| && Holds(Build(elems[i], None), b) != Ok(true);
      ElementListed(elems, i);
      SortedMembers(BuildList(elems), Build(elems[i], None));
    }
  }
}
