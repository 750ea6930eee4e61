# sift, modelled in Dafny

sift filters arrays of JavaScript values with MongoDB-style queries. It has two query engines.

`sift.js` holds the current engine. `QueryParser.parse` compiles a query into a *statement*. A statement is a list of *expressions*, each holding:

- a key;
- an operand;
- a tester function taken from the `_testers` table.

A key the table knows is an operator. A key not starting with `$` is a property to traverse (`$trav`). Any other key is an "Unknown operator" error. A dotted key `a.b.c` is first rewritten into nested objects by `_convertDotToSubObject`. `test` runs the expressions in order and succeeds when all of them do. `createSifter` keeps, in order, the elements of the target whose selected value passes the statement. `useOperator` adds testers to the table.

`lib/stmt.js` holds an older engine that weighs expressions:

- `builder.parse` gives every expression a cost `w`, computed as `WEIGHT_FACTOR[type] * 100 + weight(value)`.
- `orderExprs` sorts expressions by decreasing cost.
- Its `test` scans from the end, so the cheapest expression runs first.

The model is organised as follows.

- `JsValue` holds the JavaScript runtime both engines lean on:
  - values, where heap values carry an identity because `===` and `indexOf` compare identity;
  - truthiness and strict equality;
  - `indexOf`, property reads and relational comparison;
  - `%`, which truncates toward zero.

  A thrown exception is a `Throws` result.
- `SiftTree` holds the compiled form of a query, the tester table, `useOperator` and `_comparable`.
- `SiftParse` holds `parse`: a function `Compile` and the source's loops as methods proved equal to it.
- `SiftEval` and `SiftRun` hold `test` and the testers: functions, plus the source's loops as methods proved equal to them.
- `SiftFilter` holds `getSelector`, `createSifter` and `sift`.
- `SiftLaws` holds what the compiled statements mean: which queries compile to what, and what each operator accepts.
- `StmtTree`, `StmtBuild`, `StmtOrder`, `StmtEval`, `StmtRun` and `StmtLaws` hold the same layers for `lib/stmt.js`. `orderExprs` is an in-place sort of an `array`.

The host supplies behaviour the model cannot see:

- what a user function returns, or the exception it throws;
- what a regular expression's `test` answers, or the exception it throws;
- the testers `$regex`, `$where`, `$type` and user-registered operators, which may also throw.

Each of these is a field of the `Host` parameter. A thrown exception from the host is a `Raised` fault carrying the thrown value, and it propagates like any other exception.

Four behaviours of `lib/stmt.js` are modelled as the code has them:

- `$lte`, `$gte` and `$mod` have testers but are missing from `WEIGHT_FACTOR`. `parse` therefore treats those keys as property names (`StmtLaws.OperatorTable`).
- `$nor` has a weight factor but no tester, so evaluating it throws (`StmtLaws.NorThrows`).
- A property whose query value is an array compiles to an array of statements. `$trav` cannot call `test` on that array, so it throws on any truthy datum (`StmtLaws.PropertyQuery`).
- `$all` with an array operand compares compiled statements with the datum's elements. It matches an array datum only when the operand array is empty (`StmtLaws.AllQuery`).

## Model

| member | source | states |
|---|---|---|
| JsValue.IndexOf | sift.js:370-376 | `indexOf` is -1 exactly when no element is strictly equal to the value; otherwise it is the first index holding a strictly equal element |
| JsValue.SearchThrowsIffUnsearchable | sift.js:215-217 | `a.indexOf(b)` throws exactly when `a` is neither an array nor a string |
| JsValue.TruncRem | sift.js:248-250 | `%` truncates toward zero: the remainder differs from the dividend by a multiple of the divisor, has the dividend's sign and is smaller in magnitude than the divisor |
| JsValue.TruncRemUnique | sift.js:248-250 | those three facts determine the remainder: any number satisfying them is `x % d` |
| JsValue.CompareNumbers | sift.js:171-194 | on numbers, the relational comparisons the testers use are the integer orders `<`, `>`, `<=`, `>=` |
| JsValue.Split | sift.js:92-93 | `k.split(".")` yields dot-free parts, and only one part exactly when `k` has no dot |
| JsValue.JoinSplit | sift.js:93-94 | joining the parts of a split key with dots gives back the key |
| JsValue.GetIndex | lib/stmt.js:333 | reading an array at the decimal name of an index yields the element at that index |
| JsValue.ParseIndexOfNat | lib/stmt.js:380 | the decimal name of an index is read back as that index |
| SiftTree.FallbacksPresent | sift.js:73-80 | `$eq` and `$trav`, which `parse` falls back on, always have a tester |
| SiftTree.DefaultValid | sift.js:134-140 | the built-in table is consistent: `$trav` is traversable, `$eq`/`$ne`/`$where` are not, every name starts with `$`, and a built-in tester is traversable exactly when its operand is a query (`$and`, `$or`, `$nor`, `$trav`, `$not`) |
| SiftTree.TesterOfDollar | sift.js:74-79 | every name with a tester starts with `$`, so a property name never resolves to an operator |
| SiftTree.UseOperator | sift.js:506-522 | after registering `name`, `"$" + name` runs the user's tester; every other name keeps its tester, except that replacing `$in` makes a built-in `$nin` negate the replacement; the traversable set grows by that name exactly when asked; the table stays consistent |
| SiftTree.ComparableIsComparable | sift.js:142-150 | `_comparable` leaves no date anywhere inside a value, and every array in the result is a fresh copy |
| SiftTree.ComparableFixes | sift.js:142-150 | `_comparable` leaves a value that is already comparable unchanged |
| SiftTree.ComparableIdempotent | sift.js:142-150 | applying `_comparable` twice is the same as applying it once |
| SiftTree.LiteralExprNormalises | sift.js:404-419 | exactly `$eq` and `$ne` get a prepared operand; a regular expression or function literal becomes its own matcher; any other literal is stored with no date inside and fresh array copies, and unchanged when it already had that form |
| SiftParse.Rewrite | sift.js:91-97 | the rewritten key holds no dot, and the rewritten value is smaller than the original field, so the parse recursion terminates |
| SiftParse.ConvertDot | sift.js:15-27 | the loop builds exactly the nested object `Nest(parts, v)` |
| SiftParse.ResolveOperator | sift.js:73-80 | a key with a tester is its own operator; a key not starting with `$` is `$trav`; any other key throws "Unknown operator"; a resolved operator always has a tester |
| SiftParse.Parse | sift.js:58-131 | `parse` returns exactly the statement `Compile` describes, or throws the same error |
| SiftParse.ParseField | sift.js:68-115 | the loop body for one key yields exactly `CompileField` of that key |
| SiftParse.ParseList | sift.js:100-106 | the array loop compiles the elements from the last to the first, as `CompileList` says |
| SiftRun.Test | sift.js:38-52 | the `test` loop returns exactly `Eval` |
| SiftRun.TestExpr | sift.js:45-47 | one expression is evaluated on the comparable datum and the raw datum |
| SiftRun.RunTester | sift.js:152-354 | dispatching to the tester gives exactly `Apply`: a host tester, `$nin` over a replaced `$in`, or a built-in |
| SiftRun.RunBuiltin | sift.js:152-354 | each built-in tester, run by its own loop where it has one, gives exactly `Apply` |
| SiftRun.RunCallTest | sift.js:157-166 | `$eq` and `$ne` call the prepared operand's `test`; `$not` throws when the operand has none |
| SiftRun.RunMembership | sift.js:241-243 | `$in`, `$nin` and `$all` agree with `Apply` whatever the host and raw datum are |
| SiftRun.RunLogical | sift.js:276-338 | `$or`, `$nor`, `$and` and `$trav` agree with `Apply` |
| SiftRun.TestOperand | sift.js:225-228 | `a.test(b)` on a nested operand evaluates it, and throws when the operand has no `test` |
| SiftRun.TestIn | sift.js:206-220 | the `$in` loop returns exactly `InTest` |
| SiftRun.TestAll | sift.js:255-264 | the `$all` loop returns exactly `AllTest` |
| SiftRun.TestOr | sift.js:276-288 | the `$or` loop: true for an empty list, otherwise `AnyStmt` |
| SiftRun.TestNor | sift.js:293-304 | the `$nor` loop is the negation of `AnyStmt` |
| SiftRun.TestAnd | sift.js:309-318 | the `$and` loop returns exactly `AllStmt` |
| SiftRun.TestTrav | sift.js:325-333 | the `$trav` loop over an array returns exactly `TravScan` |
| SiftRun.TestTravList | sift.js:327-330 | the `$trav` loop with an array of statements as operand returns exactly `TravListScan` |
| SiftFilter.GetSelector | sift.js:424-437 | a falsy selector is the identity; a function is itself; anything else throws "Unknown sift selector" |
| SiftFilter.RunSifter | sift.js:445-462 | the sifter's loop returns exactly `Sifted` |
| SiftFilter.RunSift | sift.js:478-493 | `sift(query, array, selector)` resolves the selector, parses the query and sifts the array |
| SiftFilter.SiftedIsKeep | sift.js:451-459 | when neither the selector nor the statement throws on any element, the sifter is the order-preserving filter `Keep` |
| SiftFilter.SiftedThrows | sift.js:453-458 | the first element on which the selector or the statement throws makes the whole call throw that exception |
| SiftFilter.KeepMembers | sift.js:458 | a value is kept iff it is in the target and its selected value passes |
| SiftFilter.KeepAppend | sift.js:451-453 | filtering distributes over concatenation, so order is kept |
| SiftFilter.KeepShorter | sift.js:453-459 | the result is never longer than the target |
| SiftFilter.SiftIdentity | sift.js:478-493 | without a selector, `sift` returns exactly the elements, in order, that the compiled query accepts |
| SiftLaws.ExprsAllTrue | sift.js:43-51 | the expression loop succeeds iff every expression succeeds |
| SiftLaws.TestIsConjunction | sift.js:38-52 | `test` holds iff every expression holds; an empty statement holds |
| SiftLaws.TestStopsAtFirstFailure | sift.js:43-48 | `test` returns what the first failing or throwing expression returns |
| SiftLaws.CompileLiteral | sift.js:58-120 | a falsy or non-object query compiles to one `$eq` expression on the prepared comparable value; for a falsy query its key is `$eq` |
| SiftLaws.UnknownOperatorThrows | sift.js:73-80 | an unknown `$`-key throws "Unknown operator" naming the key, once every key before it compiles, whatever keys follow |
| SiftLaws.PropertyCompiles | sift.js:73-114 | a plain property key compiles to `$trav` over the statement its value compiles to, under that key |
| SiftLaws.NestedFieldCompiles | sift.js:108-114 | a traversable operator with a non-array value gets the value's compiled statement |
| SiftLaws.ListFieldCompiles | sift.js:100-106 | a traversable operator with an array value gets the elements' compiled statements |
| SiftLaws.PropertyTraversal | sift.js:335-337 | on any non-array datum, dates included, `$trav` tests the property's value, or `undefined` when the datum is falsy |
| SiftLaws.NoDotKept | sift.js:92 | a key without a dot is not rewritten |
| SiftLaws.NestFollows | sift.js:15-27 | following the key parts through the built object reaches the value; each level holds exactly the next part as its only key |
| SiftLaws.SplitHead | sift.js:93-94 | the first part of a dotted key is a prefix of the key |
| SiftLaws.DottedKey | sift.js:91-97 | `{"a.b.c": v}` compiles exactly as `{a: {b: {c: v}}}` |
| SiftLaws.EqLiteral | sift.js:361-382 | a prepared `$eq` literal matches an array datum iff it is one of the datum's elements, and any other datum iff the two are strictly equal |
| SiftLaws.NeLiteral | sift.js:164-166 | `$ne` on a prepared literal is the negation of `$eq`, passing on whatever `$eq` throws; it never throws unless the literal is a function or a regular expression |
| SiftLaws.EqArrayLiteralNeverMatches | sift.js:404-406 | an array literal is copied by `_comparable`, so `$eq` with it never matches |
| SiftLaws.InScanArray | sift.js:209-213 | `$in` of an array datum holds iff some datum element is strictly equal to some operand element |
| SiftLaws.InNinOnArrays | sift.js:206-243 | `$in` with an array holds iff the datum, or one of its elements, is strictly equal to an operand element; `$nin` is its negation |
| SiftLaws.NinNegatesIn | sift.js:241-243 | `$nin` is the negation of whatever the table holds under `$in`, the built-in or a user's replacement, called without the raw datum |
| SiftLaws.AllObjectOperand | sift.js:255-264 | `$all` with an object operand reads its own `length` `n` and its `"0"` … `"n-1"`; on an array datum it holds iff each of them occurs in the datum |
| SiftLaws.AllFalsyCandidate | sift.js:256 | `$all` on a falsy datum holds iff the operand array is empty |
| SiftLaws.AllScanArray | sift.js:257-261 | the `$all` loop on an array holds iff every operand element is strictly equal to some datum element |
| SiftLaws.AllOnArrays | sift.js:255-264 | `$all` on an array datum holds iff the datum covers every operand element |
| SiftLaws.AnyStmtExists | sift.js:281-285 | when nothing throws, the `$or` loop holds iff some statement holds |
| SiftLaws.AllStmtForall | sift.js:311-315 | when nothing throws, the `$and` loop holds iff every statement holds |
| SiftLaws.AndOperator | sift.js:309-318 | `$and` holds iff every sub-statement holds |
| SiftLaws.OrOperator | sift.js:276-288 | `$or` holds iff the list is empty or some sub-statement holds |
| SiftLaws.NorOperator | sift.js:293-304 | `$nor` holds iff every sub-statement fails |
| SiftLaws.CompileListReversed | sift.js:104-106 | the compiled list holds the element statements in reverse order |
| SiftLaws.AndCompiles | sift.js:100-114 | `{$and: [...]}` compiles to `$and` over the elements' statements |
| SiftLaws.ReversedAllHold | sift.js:104-106 | reversing the list does not change whether every statement holds |
| SiftLaws.AndQuery | sift.js:309-318 | `$and: [q1..qn]` holds iff every `qi`, compiled on its own, holds on the comparable datum |
| SiftLaws.NotCompiles | sift.js:108-114 | `{$not: q}` compiles to `$not` over `q`'s statement |
| SiftLaws.NotQuery | sift.js:225-228 | `$not` is the negation of its sub-statement on the comparable datum |
| SiftLaws.TravOverArray | sift.js:325-333 | on an array datum, `$trav` holds iff some element has a truthy property value that satisfies the sub-statement |
| SiftLaws.ExistsQueryCompiles | sift.js:58-131 | `{f: {$exists: t}}` compiles to `$trav` on `f` over one `$exists` expression |
| SiftLaws.ExistsOnField | sift.js:335-337 | `{f: {$exists: t}}` on any object holds exactly when `t` says whether `f` holds something other than null or undefined; so `{f: {$exists: false}}` matches an object without `f` |
| SiftLaws.SizeQuery | sift.js:269-271 | `$size: n` holds on an array or non-empty string exactly when its length is `n`, and never on a falsy value |
| SiftLaws.ModQuery | sift.js:248-250 | `$mod: [m, k]` holds on a number `x` exactly when `m` is not 0 and `x % m` is `k`; never on undefined; a null or undefined operand throws |
| SiftLaws.LiteralWellShaped | sift.js:404-419 | a non-traversable operator's expression has a literal operand; for `$eq`/`$ne` it is a prepared one |
| SiftLaws.CompiledWellShaped | sift.js:58-131 | in every compiled statement, value testers get literals and structural testers get statements, at every depth |
| StmtTree.PlusLaws | lib/stmt.js:429-431 | summing weights is commutative and associative with 0 as unit, so the loop's order does not matter; NaN absorbs everything |
| StmtTree.Resolve | lib/stmt.js:384 | a key in `WEIGHT_FACTOR` is its own operator and any other key is `$trav`; the result always has a weight factor |
| StmtTree.Comparable | lib/stmt.js:43-54 | a date becomes the number of its epoch; every other value is returned as it is; no date is left |
| StmtTree.WeighArray | lib/stmt.js:131-143 | the `weigh.array` loop returns exactly `ArrayWeight` |
| StmtTree.GetExpr | lib/stmt.js:339-352 | the expression keeps the type and key; a literal operand is stored as `comparable(value)` and any other as it is; the weight is `WEIGHT_FACTOR[type] * 100 + weight(value)`, and NaN exactly when the operand's weight is |
| StmtBuild.Parse | lib/stmt.js:371-446 | `builder.parse` returns exactly `Build`: the sorted expressions, the key and the summed weight |
| StmtBuild.ParseKeys | lib/stmt.js:377-426 | the expressions pushed before sorting are exactly `Exprs` |
| StmtBuild.ParseObject | lib/stmt.js:380-418 | the `for…in` loop over an object's keys yields one expression per key, in order |
| StmtBuild.ParseArray | lib/stmt.js:380-418 | the `for…in` loop over an array yields one expression per index, in order |
| StmtBuild.SumWeights | lib/stmt.js:429-431 | the weight loop sums the expressions' weights |
| StmtBuild.ParseField | lib/stmt.js:384-417 | the loop body for one key yields exactly `FieldExpr` |
| StmtBuild.ParseList | lib/stmt.js:400-404 | the array loop parses the elements from the last to the first, as `BuildList` says |
| StmtOrder.OrderExprs | lib/stmt.js:354-364 | the sort leaves exactly `Ordered` of the old contents in the array |
| StmtOrder.Insert | lib/stmt.js:356-361 | one insertion pass moves the next element into the sorted prefix and leaves the rest untouched |
| StmtOrder.OrderedPermutes | lib/stmt.js:354-364 | sorting only reorders: the result is a permutation of the input |
| StmtOrder.OrderedSorted | lib/stmt.js:356-361 | with numeric weights, the sorted weights do not increase, so the last expression, which `test` runs first, is the lightest |
| StmtOrder.OrderedSum | lib/stmt.js:429-434 | sorting does not change the summed weight |
| StmtRun.Test | lib/stmt.js:7-20 | the `test` loop returns exactly `Holds` |
| StmtRun.RunTester | lib/stmt.js:160-336 | dispatching to the tester gives exactly `Apply` |
| StmtRun.TestAll | lib/stmt.js:269-281 | the `$all` loop returns exactly `AllFound` |
| StmtRun.TestOr | lib/stmt.js:295-309 | the `$or` loop returns exactly `AnyHolds` |
| StmtRun.TestAnd | lib/stmt.js:314-326 | the `$and` loop returns exactly `AllHold` |
| StmtLaws.HoldsAllIsConjunction | lib/stmt.js:12-19 | when nothing throws, `test` holds iff every expression passes |
| StmtLaws.HoldsAllStopsAtFirstFailure | lib/stmt.js:12-19 | scanning from the end, the first expression that is not satisfied decides `test`'s outcome, false or its exception, whatever precedes it |
| StmtLaws.ReorderHolds | lib/stmt.js:354-364 | when nothing throws, sorting the expressions does not change `test`'s answer |
| StmtLaws.BuiltHolds | lib/stmt.js:371-446 | when no expression throws, a parsed statement holds iff every expression of the statement passes |
| StmtLaws.ScalarStatement | lib/stmt.js:422-426 | a non-object query matches exactly the data strictly equal to it |
| StmtLaws.BuiltWeight | lib/stmt.js:429-434 | a parsed statement weighs the sum of its expressions, holds the same expressions, and orders them heaviest first |
| StmtLaws.ArrayWeightNaN | lib/stmt.js:131-143 | an array's weight is NaN iff some element's weight is |
| StmtLaws.FactorDominates | lib/stmt.js:346 | a lower weight factor gives a lighter expression whenever the operand weights differ by less than 100 |
| StmtLaws.BuiltWellShaped | lib/stmt.js:393-417 | every parsed expression has a weight factor, and a literal operand iff its operator is not traversable |
| StmtLaws.OperatorTable | lib/stmt.js:58-73 | `$lte`, `$gte` and `$mod` are not in the weight table, so `parse` reads them as properties |
| StmtLaws.KnownOperators | lib/stmt.js:58-73 | `$or`, `$and`, `$nor`, `$in` and `$nin` resolve to themselves |
| StmtLaws.NorThrows | lib/stmt.js:160-336 | a `$nor` expression throws, for there is no `$nor` tester |
| StmtLaws.PropertyQuery | lib/stmt.js:331-335 | a property query fails on falsy data; on truthy data it tests the property's value, or throws when its query is an array |
| StmtLaws.ExistsQuery | lib/stmt.js:220-224 | `$exists: t` holds iff `t` equals the datum's truthiness |
| StmtLaws.InQuery | lib/stmt.js:229-255 | `$in` with an array holds iff the datum, or one of its elements, is strictly equal to an operand element; `$nin` is its negation |
| StmtLaws.AllQuery | lib/stmt.js:269-281 | `$all` with an array operand holds on an array datum only for the empty operand |
| StmtLaws.BuildListAt | lib/stmt.js:400-404 | the parsed list holds the element statements in reverse order |
| StmtLaws.AnyHoldsIsDisjunction | lib/stmt.js:297-307 | when nothing throws, the `$or` loop holds iff some statement holds |
| StmtLaws.AllHoldIsConjunction | lib/stmt.js:316-325 | when nothing throws, the `$and` loop holds iff every statement holds |
| StmtLaws.OrQuery | lib/stmt.js:295-309 | `$or: [q1..qn]` holds iff some `qi`, parsed on its own, holds on the comparable datum |
| StmtLaws.AndQuery | lib/stmt.js:314-326 | `$and: [q1..qn]` holds iff every `qi`, parsed on its own, holds on the comparable datum |

## Left out

**Numbers and conversions**

- Numbers are unbounded integers. Floating point, fractional values, NaN and infinities as data are not modelled.
- A string is never converted to a number. A relational comparison of a string with a number is treated as undefined, so it is false.
- Heap values are not converted to strings, except where `indexOf` on a string is given a compiled statement, which reads `"[object Object]"`.
- Strings compare by character code. UTF-16 code units are not distinguished.
- `parse` compiles an object as a query only when its `constructor` is `Object`. An object with an own `constructor` key, or built by a class, is compared as an `$eq` literal by sift.js. The model compiles every object's keys, since it has neither prototypes nor classes.
- Prototype members are not modelled, so an `Object.prototype` name such as `toString` is neither a tester nor a weight factor. An object's own `test` or `indexOf` method is not called either.

**Host-side and out-of-scope code**

- `$regex`, `$where`, `$type` and user-registered testers are left to the host.
- `_prepare.$where`, which turns a string into a `Function`, is not part of this model.
- Registering an operator without a test function is not modelled.
- Making `$eq`, `$ne` or `$where` traversable is excluded by `Valid`. sift.js would then recurse forever or prepare a statement.
- `sift`'s shuffling of arguments when the target is not an object is not modelled. Neither is returning the sifter function instead of applying it, nor `sift.use` and `useOperators`, which only loop over `useOperator`.
- Targets are sequences.
- The module wiring of both files is not modelled, nor `hydrate` (empty in the source), `parse` (a one-line wrapper around `builder.parse`) or cyclic data.
- `_convertDotToSubObject` is modelled as building the nested object bottom-up. The intermediate aliasing of `currentValue` is not modelled.

**Modelling choices in the evaluators**

- An operand of a shape that parsing never produces gives a TypeError in the evaluators. `CompiledWellShaped` and `BuiltWellShaped` show such operands do not occur.
- The engine's sort algorithm is not specified by the language. `orderExprs` is modelled as a stable insertion sort.
- A string or object `w` read by `weigh.complex` is modelled as NaN, not as string concatenation.
- `lib/stmt.js` uses loose `==` and `!=` in `$eq`, `$ne`, `$exists`, `$mod` and `$size`. Except in `$exists` and `$mod`, this is modelled as strict equality. Loose equality differs only when the types differ, for example `null == undefined`.
- A regular expression's `typeof` is taken as `"object"`.
- `$nin` looks up `_testers.$in` each time it runs. The model resolves it when the query is compiled. The two differ only when `useOperator("in", …)` is called between compiling a query and testing with it.
- An object operand of `$all` whose own `length` is a negative number is taken to have no elements. sift.js's loop then counts down past zero and stops only at an element missing from the candidate.

**Weaker contracts**

- StmtLaws.ReorderHolds: needs every expression not to throw. Which exception a reordered statement throws first is not modelled.
