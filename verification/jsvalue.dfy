/**
  The JavaScript values that queries and data are made of, and the few pieces of
  the JavaScript runtime that both query engines lean on: truthiness, strict
  equality, `indexOf`, property reads, relational comparison and `%`.

  Numbers are integers (floating point is not modelled). Heap values (dates,
  arrays, objects, functions, regular expressions) carry an identity, because
  `===` and `indexOf` compare them by identity and not by contents.
*/
module JsValue {

  datatype Option<+T> = None | Some(value: T)

  /** Identity of a heap value. `Fresh` is an object the program has just
      allocated and handed to nobody else, so it is strictly equal to nothing.
      An `At` address names one heap value: two values carrying the same
      address stand for that one value, and `===` compares addresses only
      (nothing checks that their kinds and contents agree). */
  datatype Ref = Fresh | At(addr: nat)

  datatype Value =
    | Undefined
    | Null
    | Bool(b: bool)
    | Num(n: int)
    | Str(s: string)
    | Date(id: Ref, epoch: int)
    | Arr(id: Ref, elems: seq<Value>)
    | Obj(id: Ref, fields: seq<Field>)
    | Fn(id: Ref, arity: nat)
    | Regex(id: Ref)
  {
    /** Values compared by identity: everything `typeof` does not call a primitive. */
    predicate IsRef() {
      Date? || Arr? || Obj? || Fn? || Regex?
    }

    /** `v == null` in JavaScript: reading a property of such a value throws. */
    predicate IsNullish() {
      Undefined? || Null?
    }
  }

  /** One own enumerable property of a plain object; an object's fields are kept
      in `for…in` order. */
  datatype Field = Field(key: string, val: Value)

  /** The exceptions the two engines can raise. */
  datatype Fault =
    | TypeError             // a property read on null/undefined, or a call of a non-function
    | UnknownOperator(key: string)
    | NotAnExpression       // `$not` given a value instead of a query
    | UnknownSelector
    | Raised(thrown: Value) // what a user function threw

  /** A computation that returns normally or throws. */
  datatype Result<+T> = Ok(value: T) | Throws(fault: Fault)
  {
    predicate IsFailure() { Throws? }

    function PropagateFailure<U>(): Result<U>
      requires Throws?
    {
      Throws(fault)
    }

    function Extract(): T
      requires Ok?
    {
      value
    }
  }

  /** `pre` pushed in front of what a later computation produces. */
  function Prepend<T>(pre: seq<T>, r: Result<seq<T>>): Result<seq<T>> {
    match r
    case Ok(rest) => Ok(pre + rest)
    case Throws(f) => Throws(f)
  }

  lemma PrependNothing<T>(r: Result<seq<T>>)
    ensures Prepend([], r) == r
  {
    match r
    case Ok(rest) => assert [] + rest == rest;
    case Throws(_) =>
  }

  lemma PrependPrepend<T>(a: seq<T>, b: seq<T>, r: Result<seq<T>>)
    ensures Prepend(a, Prepend(b, r)) == Prepend(a + b, r)
  {
    match r
    case Ok(rest) => assert a + (b + rest) == (a + b) + rest;
    case Throws(_) =>
  }

  /** JavaScript truthiness (`!!v`). */
  predicate Truthy(v: Value) {
    match v
    case Undefined => false
    case Null => false
    case Bool(b) => b
    case Num(n) => n != 0
    case Str(s) => s != ""
    case _ => true
  }

  /** `a === b`: primitives by value, heap values by identity. */
  predicate StrictEq(a: Value, b: Value) {
    if a.IsRef() || b.IsRef() then a.IsRef() && b.IsRef() && a.id.At? && a.id == b.id
    else a == b
  }

  /** `Array.prototype.indexOf`: the first index holding a value strictly equal
      to `x`, or -1. */
  function IndexOf(xs: seq<Value>, x: Value): (r: int)
    ensures -1 <= r < |xs|
    ensures r == -1 <==> forall i :: 0 <= i < |xs| ==> !StrictEq(xs[i], x)
    ensures r >= 0 ==> StrictEq(xs[r], x) && forall i :: 0 <= i < r ==> !StrictEq(xs[i], x)
  {
    if |xs| == 0 then -1
    else if StrictEq(xs[0], x) then 0
    else
      var r := IndexOf(xs[1..], x);
      if r == -1 then -1 else r + 1
  }

  /** Whether `t` occurs as a substring of `s` (`s.indexOf(t) > -1`). */
  predicate Occurs(t: string, s: string)
    decreases |s|
  {
    t <= s || (|s| > 0 && Occurs(t, s[1..]))
  }

  /** The decimal digits of a natural number, as `String(n)` writes them. */
  function NatToString(n: nat): (r: string)
    ensures |r| >= 1
    ensures forall i :: 0 <= i < |r| ==> '0' <= r[i] <= '9'
    ensures r[0] == '0' ==> n == 0
  {
    if n < 10 then [Digit(n)] else NatToString(n / 10) + [Digit(n % 10)]
  }

  function Digit(d: nat): (c: char)
    requires d < 10
    ensures '0' <= c <= '9'
    ensures (c as int) - ('0' as int) == d
  {
    (48 + d) as char
  }

  /** `String(n)` for an integer. */
  function IntToString(n: int): string {
    if n < 0 then "-" + NatToString(-n) else NatToString(n)
  }

  function DigitsValue(k: string): nat
    requires forall i :: 0 <= i < |k| ==> '0' <= k[i] <= '9'
  {
    if |k| == 0 then 0
    else DigitsValue(k[..|k| - 1]) * 10 + ((k[|k| - 1] as int) - ('0' as int))
  }

  /** The array index a property key names: a non-empty run of digits without a
      leading zero (other than "0" itself). */
  function ParseIndex(k: string): Option<nat> {
    if |k| == 0 || (k[0] == '0' && |k| > 1) then None
    else if forall i :: 0 <= i < |k| ==> '0' <= k[i] <= '9' then Some(DigitsValue(k))
    else None
  }

  lemma {:induction false} DigitsOfNat(n: nat)
    ensures DigitsValue(NatToString(n)) == n
  {
    if n >= 10 {
      DigitsOfNat(n / 10);
      var s := NatToString(n);
      assert s[..|s| - 1] == NatToString(n / 10);
      assert s[|s| - 1] == Digit(n % 10);
    }
  }

  /** Property key and array index round-trip: `a[String(i)]` reads element i. */
  lemma ParseIndexOfNat(n: nat)
    ensures ParseIndex(NatToString(n)) == Some(n)
  {
    DigitsOfNat(n);
  }

  /** `ToString` of a primitive; heap values have none here (see README). */
  function PrimitiveString(v: Value): Option<string> {
    match v
    case Undefined => Some("undefined")
    case Null => Some("null")
    case Bool(b) => Some(if b then "true" else "false")
    case Num(n) => Some(IntToString(n))
    case Str(s) => Some(s)
    case _ => None
  }

  /** `container.indexOf(x) > -1`; throws when `container` has no `indexOf`. */
  function Search(container: Value, x: Value): Result<bool> {
    match container
    case Arr(_, es) => Ok(IndexOf(es, x) >= 0)
    case Str(s) =>
      (match PrimitiveString(x)
       case Some(t) => Ok(Occurs(t, s))
       case None => Ok(false))
    case _ => Throws(TypeError)
  }

  /** Whether `container.indexOf` exists on this value. */
  predicate Searchable(container: Value) {
    container.Arr? || container.Str?
  }

  lemma SearchThrowsIffUnsearchable(container: Value, x: Value)
    ensures Search(container, x).Throws? <==> !Searchable(container)
  {
  }

  /** The value of the first field named `k`, or undefined. */
  function Lookup(fs: seq<Field>, k: string): Value {
    if |fs| == 0 then Undefined
    else if fs[0].key == k then fs[0].val
    else Lookup(fs[1..], k)
  }

  /** `v[k]` for a value that is not null or undefined (those throw instead:
      callers check `IsNullish` first). Prototype members are not modelled. */
  function Get(v: Value, k: string): Value {
    match v
    case Obj(_, fs) => Lookup(fs, k)
    case Arr(_, es) =>
      if k == "length" then Num(|es|)
      else (match ParseIndex(k)
            case Some(i) => if i < |es| then es[i] else Undefined
            case None => Undefined)
    case Str(s) =>
      if k == "length" then Num(|s|)
      else (match ParseIndex(k)
            case Some(i) => if i < |s| then Str([s[i]]) else Undefined
            case None => Undefined)
    case Fn(_, arity) => if k == "length" then Num(arity) else Undefined
    case _ => Undefined
  }

  /** `a.k` as a property name: an absent key reads the property "undefined". */
  function KeyName(k: Option<string>): string {
    match k
    case Some(name) => name
    case None => "undefined"
  }

  lemma GetIndex(v: Value, i: nat)
    requires v.Arr? && i < |v.elems|
    ensures Get(v, NatToString(i)) == v.elems[i]
  {
    ParseIndexOfNat(i);
  }

  /** The elements a `for (i = a.length; i--;)` loop visits via `a[i]`: an
      array's elements, a string's characters, `arity` holes of a function,
      an object's own `"0"` … `"n-1"` when its own `length` is a number
      `n >= 0`; nothing for a value without a length; a TypeError for
      null/undefined. */
  function Elements(a: Value): Result<seq<Value>> {
    match a
    case Undefined => Throws(TypeError)
    case Null => Throws(TypeError)
    case Arr(_, es) => Ok(es)
    case Str(s) => Ok(seq(|s|, i requires 0 <= i < |s| => Str([s[i]])))
    case Fn(_, arity) => Ok(seq(arity, _ => Undefined))
    case Obj(_, _) =>
      (match ToNumber(Get(a, "length"))
       case Some(n) => if n >= 0 then Ok(seq(n, i requires 0 <= i < n => Get(a, NatToString(i)))) else Ok([])
       case None => Ok([]))
    case _ => Ok([])
  }

  /** `ToNumber` for the values whose conversion is modelled (a date gives its
      epoch, as `valueOf` does); `None` stands for NaN or an unmodelled string. */
  function ToNumber(v: Value): Option<int> {
    match v
    case Null => Some(0)
    case Bool(b) => Some(if b then 1 else 0)
    case Num(n) => Some(n)
    case Date(_, t) => Some(t)
    case _ => None
  }

  /** Lexicographic order of strings by character code. */
  function LexCompare(s: string, t: string): int {
    if |s| == 0 && |t| == 0 then 0
    else if |s| == 0 then -1
    else if |t| == 0 then 1
    else if s[0] < t[0] then -1
    else if s[0] > t[0] then 1
    else LexCompare(s[1..], t[1..])
  }

  /** The abstract relational comparison of `a` and `b`: -1, 0 or 1, or `None`
      when JavaScript's answer is "undefined" (every relation is then false). */
  function Compare(a: Value, b: Value): Option<int> {
    if a.Str? && b.Str? then Some(LexCompare(a.s, b.s))
    else
      match (ToNumber(a), ToNumber(b))
      case (Some(x), Some(y)) => Some(if x < y then -1 else if x == y then 0 else 1)
      case _ => None
  }

  predicate Less(a: Value, b: Value) { Compare(a, b) == Some(-1) }
  predicate Greater(a: Value, b: Value) { Compare(a, b) == Some(1) }
  predicate AtMost(a: Value, b: Value) { Compare(a, b) == Some(-1) || Compare(a, b) == Some(0) }
  predicate AtLeast(a: Value, b: Value) { Compare(a, b) == Some(1) || Compare(a, b) == Some(0) }

  lemma CompareNumbers(x: int, y: int)
    ensures Less(Num(x), Num(y)) <==> x < y
    ensures Greater(Num(x), Num(y)) <==> x > y
    ensures AtMost(Num(x), Num(y)) <==> x <= y
    ensures AtLeast(Num(x), Num(y)) <==> x >= y
  {
  }

  /** JavaScript's `x % d` on integers: the remainder truncates toward zero, so
      it takes the sign of the dividend (Dafny's `%` never goes negative). */
  function TruncRem(x: int, d: int): (r: int)
    requires d != 0
    ensures x >= 0 ==> 0 <= r < Abs(d)
    ensures x < 0 ==> -Abs(d) < r <= 0
    ensures (x - r) % Abs(d) == 0
  {
    var m := Abs(d);
    if x >= 0 then
      assert x - x % m == m * (x / m);
      MultipleRem(m, x / m);
      x % m
    else
      assert x + (-x) % m == m * -((-x) / m);
      MultipleRem(m, -((-x) / m));
      -((-x) % m)
  }

  /** A multiple of `m` leaves no remainder. */
  lemma MultipleRem(m: int, q: int)
    requires m > 0
    ensures (m * q) % m == 0
  {
    var k := m * q;
    assert k == m * (k / m) + k % m;
    NoSmallMultiple(m, q - k / m, k % m);
  }

  /** The only multiple of `m` lying in `[0, m)` is 0. */
  lemma NoSmallMultiple(m: int, q: int, r: int)
    requires m > 0 && 0 <= r < m && m * q == r
    ensures q == 0
  {
  }

  /** The truncating remainder is the only number with its sign, below the
      divisor's magnitude, that differs from the dividend by a multiple of the
      divisor: this is how ECMAScript defines `%`. */
  lemma TruncRemUnique(x: int, d: int, q: int, r: int)
    requires d != 0
    requires x == Abs(d) * q + r
    requires x >= 0 ==> 0 <= r < Abs(d)
    requires x < 0 ==> -Abs(d) < r <= 0
    ensures r == TruncRem(x, d)
  {
    var m := Abs(d);
    if x >= 0 {
      assert x == m * (x / m) + x % m;
      assert m * (q - x / m) == x % m - r;
      if x % m >= r {
        NoSmallMultiple(m, q - x / m, x % m - r);
      } else {
        assert m * (x / m - q) == r - x % m;
        NoSmallMultiple(m, x / m - q, r - x % m);
      }
    } else {
      var y := -x;
      assert y == m * (y / m) + y % m;
      assert m * (-q - y / m) == y % m + r;
      if y % m + r >= 0 {
        NoSmallMultiple(m, -q - y / m, y % m + r);
      } else {
        assert m * (y / m + q) == -(y % m + r);
        NoSmallMultiple(m, y / m + q, -(y % m + r));
      }
    }
  }

  function Abs(x: int): int {
    if x < 0 then -x else x
  }

  /** `q == v` for a number `q`, loose equality with the conversions modelled. */
  predicate LooseEqNum(q: int, v: Value) {
    match v
    case Num(n) => q == n
    case Bool(b) => q == (if b then 1 else 0)
    case _ => false
  }

  /** `v == t` for a boolean `t`, loose equality with the conversions modelled. */
  predicate LooseEqBool(v: Value, t: bool) {
    match v
    case Bool(b) => b == t
    case Num(n) => n == (if t then 1 else 0)
    case _ => false
  }

  /** The parts of a key between its dots, as `k.split(".")`. */
  function Split(s: string): (parts: seq<string>)
    ensures |parts| >= 1
    ensures forall i :: 0 <= i < |parts| ==> '.' !in parts[i]
    ensures |parts| == 1 <==> '.' !in s
  {
    if |s| == 0 then [""]
    else
      var rest := Split(s[1..]);
      if s[0] == '.' then [""] + rest
      else [[s[0]] + rest[0]] + rest[1..]
  }

  /** The parts joined back with dots. */
  function Join(parts: seq<string>): string
    requires |parts| >= 1
  {
    if |parts| == 1 then parts[0] else parts[0] + "." + Join(parts[1..])
  }

  /** `k.split(".")` loses nothing: joining the parts gives back the key. */
  lemma {:induction false} JoinSplit(s: string)
    ensures Join(Split(s)) == s
  {
    if |s| > 0 {
      JoinSplit(s[1..]);
      var rest := Split(s[1..]);
      if s[0] != '.' && |rest| > 1 {
        assert Split(s)[1..] == rest[1..];
      }
    }
  }
}
