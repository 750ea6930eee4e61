/**
  `sift(query, target, selector)` of sift.js over an array target: the selector
  is resolved, the query compiled, and the array filtered in order by the
  compiled statement. `Sift` says what comes out; `RunSift` and `RunSifter`
  are the source's code, proved to return exactly that.
*/
module SiftFilter {
  import opened JsValue
  import opened SiftTree
  import opened SiftEval
  import opened SiftParse
  import SiftRun

  /** What `getSelector` returns: the identity, or the user's function. */
  datatype Selector = Identity | Call(f: Value)

  /** `getSelector(selector)`: a falsy selector is the identity and a function
      is used as it is; anything else throws "Unknown sift selector". */
  function GetSelector(raw: Value): (r: Result<Selector>)
    ensures r.Throws? <==> Truthy(raw) && !raw.Fn?
    ensures r.Throws? ==> r.fault == UnknownSelector
    ensures r == Ok(Identity) <==> !Truthy(raw)
    ensures r.Ok? && r.value.Call? ==> raw.Fn? && r.value.f == raw
  {
    if !Truthy(raw) then Ok(Identity)
    else if raw.Fn? then Ok(Call(raw))
    else Throws(UnknownSelector)
  }

  /** `selector(value)`; a user selector may throw. */
  function Select(h: Host, sel: Selector, v: Value): Result<Value> {
    match sel
    case Identity => Ok(v)
    case Call(f) => h.call(f, v)
  }

  /** `filter.test(selector(value))` for one element of the target. */
  function Judge(h: Host, s: Stmt, sel: Selector, v: Value): Result<bool> {
    var t :- Select(h, sel, v);
    Eval(h, s, t)
  }

  /** The sifter over `xs`: the elements, in order, whose selected value the
      statement accepts; the first element on which the selector or the
      statement throws makes the whole call throw. */
  function Sifted(h: Host, s: Stmt, sel: Selector, xs: seq<Value>): Result<seq<Value>> {
    if |xs| == 0 then Ok([])
    else
      var ok :- Judge(h, s, sel, xs[0]);
      Prepend(if ok then [xs[0]] else [], Sifted(h, s, sel, xs[1..]))
  }

  /** `sift(query, target, selector)` with an array target. */
  function Sift(h: Host, reg: Registry, query: Value, raw: Value, xs: seq<Value>): Result<seq<Value>>
    requires Valid(reg)
  {
    var sel :- GetSelector(raw);
    var s :- Compile(reg, query, None);
    Sifted(h, s, sel, xs)
  }

  /** The function `createSifter` returns, applied to the target's elements. */
  method RunSifter(h: Host, s: Stmt, sel: Selector, target: seq<Value>) returns (r: Result<seq<Value>>)
    ensures r == Sifted(h, s, sel, target)
  {
    var sifted: seq<Value> := [];
    var i := 0;
    PrependNothing(Sifted(h, s, sel, target));
    assert target[0..] == target;
    while i < |target|
      invariant 0 <= i <= |target|
      invariant Sifted(h, s, sel, target) == Prepend(sifted, Sifted(h, s, sel, target[i..]))
    {
      assert target[i..][0] == target[i] && target[i..][1..] == target[i + 1..];
      var value := target[i];
      var testValue :- Select(h, sel, value);
      var ok :- SiftRun.Test(h, s, testValue);
      var kept := if ok then [value] else [];
      PrependPrepend(sifted, kept, Sifted(h, s, sel, target[i + 1..]));
      sifted := sifted + kept;
      i := i + 1;
    }
    assert target[i..] == [];
    assert sifted + [] == sifted;
    return Ok(sifted);
  }

  /** `sift(query, target, selector)`: the selector is resolved before the
      query is compiled, so a bad selector is reported first. */
  method RunSift(h: Host, reg: Registry, query: Value, raw: Value, target: seq<Value>) returns (r: Result<seq<Value>>)
    requires Valid(reg)
    ensures r == Sift(h, reg, query, raw, target)
  {
    var sel :- GetSelector(raw);
    var s :- Parse(reg, query, None);
    r := RunSifter(h, s, sel, target);
  }

  // ---------------------------------------------------------------------------
  // What the sifter keeps

  /** The statement accepts the element's selected value. */
  predicate Passes(h: Host, s: Stmt, sel: Selector, x: Value) {
    Judge(h, s, sel, x) == Ok(true)
  }

  /** Neither the selector nor the statement throws on any element. */
  predicate Total(h: Host, s: Stmt, sel: Selector, xs: seq<Value>) {
    forall i :: 0 <= i < |xs| ==> Judge(h, s, sel, xs[i]).Ok?
  }

  /** The order-preserving filter the sifter is meant to be. */
  function Keep(h: Host, s: Stmt, sel: Selector, xs: seq<Value>): seq<Value> {
    if |xs| == 0 then []
    else (if Passes(h, s, sel, xs[0]) then [xs[0]] else []) + Keep(h, s, sel, xs[1..])
  }

  /** When nothing throws, the sifter is the filter. */
  lemma {:induction false} SiftedIsKeep(h: Host, s: Stmt, sel: Selector, xs: seq<Value>)
    requires Total(h, s, sel, xs)
    ensures Sifted(h, s, sel, xs) == Ok(Keep(h, s, sel, xs))
  {
    if |xs| > 0 {
      assert Judge(h, s, sel, xs[0]).Ok?;
      assert forall i :: 0 <= i < |xs| - 1 ==> xs[1..][i] == xs[i + 1];
      SiftedIsKeep(h, s, sel, xs[1..]);
    }
  }

  /** When the selector or the statement throws on some element, the sifter
      throws what it throws on the first such element. */
  lemma {:induction false} SiftedThrows(h: Host, s: Stmt, sel: Selector, xs: seq<Value>, i: nat)
    requires i < |xs| && Judge(h, s, sel, xs[i]).Throws?
    requires Total(h, s, sel, xs[..i])
    ensures Sifted(h, s, sel, xs) == Throws(Judge(h, s, sel, xs[i]).fault)
  {
    if i > 0 {
      assert xs[..i][0] == xs[0];
      assert xs[1..][i - 1] == xs[i];
      assert xs[1..][..i - 1] == xs[1..i];
      assert forall j :: 0 <= j < i - 1 ==> xs[1..i][j] == xs[..i][j + 1];
      SiftedThrows(h, s, sel, xs[1..], i - 1);
    }
  }

  /** An element is kept iff it is in the array and the statement accepts it. */
  lemma {:induction false} KeepMembers(h: Host, s: Stmt, sel: Selector, xs: seq<Value>, x: Value)
    ensures x in Keep(h, s, sel, xs) <==> x in xs && Passes(h, s, sel, x)
  {
    if |xs| > 0 {
      KeepMembers(h, s, sel, xs[1..], x);
      assert xs == [xs[0]] + xs[1..];
    }
  }

  /** The filter keeps the order of the array: sifting a concatenation is
      concatenating the sifted parts. */
  lemma {:induction false} KeepAppend(h: Host, s: Stmt, sel: Selector, xs: seq<Value>, ys: seq<Value>)
    ensures Keep(h, s, sel, xs + ys) == Keep(h, s, sel, xs) + Keep(h, s, sel, ys)
  {
    if |xs| == 0 {
      assert xs + ys == ys;
    } else {
      assert (xs + ys)[0] == xs[0];
      assert (xs + ys)[1..] == xs[1..] + ys;
      KeepAppend(h, s, sel, xs[1..], ys);
    }
  }

  /** The filter never yields more than it is given. */
  lemma {:induction false} KeepShorter(h: Host, s: Stmt, sel: Selector, xs: seq<Value>)
    ensures |Keep(h, s, sel, xs)| <= |xs|
  {
    if |xs| > 0 {
      KeepShorter(h, s, sel, xs[1..]);
    }
  }

  /** With the identity selector, the whole sift on a query that compiles and
      does not throw keeps exactly the elements the statement accepts. */
  lemma SiftIdentity(h: Host, reg: Registry, query: Value, raw: Value, xs: seq<Value>, s: Stmt)
    requires Valid(reg) && !Truthy(raw)
    requires Compile(reg, query, None) == Ok(s)
    requires Total(h, s, Identity, xs)
    ensures Sift(h, reg, query, raw, xs) == Ok(Keep(h, s, Identity, xs))
    ensures forall x :: x in Keep(h, s, Identity, xs) <==> x in xs && Eval(h, s, x) == Ok(true)
  {
    SiftedIsKeep(h, s, Identity, xs);
    forall x
      ensures x in Keep(h, s, Identity, xs) <==> x in xs && Eval(h, s, x) == Ok(true)
    {
      KeepMembers(h, s, Identity, xs, x);
    }
  }
}
