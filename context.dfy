/**
 * `getExecutionContext` of app.js: the flat namespace an expression is
 * evaluated in, layered math built-ins < aggregates < custom functions <
 * constants < lists, and the semantics of the built-ins the file defines
 * itself: `sum`, `product` and `fact`.
 */
module Context {
  import opened Results
  import opened Numbers

  /** What a name in the namespace stands for. */
  datatype Value =
    | Scalar(n: Num)          // a number: a constant, `PI`, `E`, ...
    | List(items: seq<Num>)   // an array: a resolved list variable
    | Builtin(name: string)   // a function app.js defines or takes from `Math`
    | Custom(name: string)    // a function of the custom-function module
    | MathObject              // the host's whole `Math` object

  /** `Math.PI` as JavaScript prints it. */
  const Pi: Num := Fin(3.141592653589793)

  /** `Math.E` as JavaScript prints it. */
  const EulerE: Num := Fin(2.718281828459045)

  /** The `standardMath` layer. */
  function StandardMath(): map<string, Value>
  {
    map[
      "Math" := MathObject,
      "sin" := Builtin("sin"), "cos" := Builtin("cos"), "tan" := Builtin("tan"),
      "arcsin" := Builtin("asin"), "arccos" := Builtin("acos"), "arctan" := Builtin("atan"),
      "log" := Builtin("log"), "log10" := Builtin("log10"), "exp" := Builtin("exp"),
      "sqrt" := Builtin("sqrt"), "abs" := Builtin("abs"), "pow" := Builtin("pow"),
      "PI" := Scalar(Pi), "E" := Scalar(EulerE), "π" := Scalar(Pi), "pi" := Scalar(Pi),
      "fact" := Builtin("fact")
    ]
  }

  /** The `customAggregates` layer. */
  function Aggregates(): map<string, Value>
  {
    map["sum" := Builtin("sum"), "product" := Builtin("product")]
  }

  /** A name's entry in a namespace, if any. */
  function Get(ctx: map<string, Value>, name: string): Option<Value>
  {
    if name in ctx then Some(ctx[name]) else None
  }

  /**
   * Name lookup by precedence: a list, else a constant, else a custom
   * function, else an aggregate, else a math built-in, else nothing.
   */
  function Lookup(name: string, constants: map<string, Num>, lists: map<string, seq<Num>>, custom: map<string, Value>): Option<Value>
  {
    if name in lists then Some(List(lists[name]))
    else if name in constants then Some(Scalar(constants[name]))
    else if name in custom then Some(custom[name])
    else if name in Aggregates() then Some(Aggregates()[name])
    else Get(StandardMath(), name)
  }

  /** The object spread `{...lower, ...upper}`: `upper`'s entries override `lower`'s. */
  function Override(lower: map<string, Value>, upper: map<string, Value>): (m: map<string, Value>)
    ensures m.Keys == lower.Keys + upper.Keys
    ensures forall name :: Get(m, name) == if name in upper then Some(upper[name]) else Get(lower, name)
  {
    lower + upper
  }

  /** Looking a name up in stacked spreads finds the topmost layer that has it. */
  lemma StackedLookup(l1: map<string, Value>, l2: map<string, Value>, l3: map<string, Value>, l4: map<string, Value>, l5: map<string, Value>, name: string)
    ensures Get(Override(Override(Override(Override(l1, l2), l3), l4), l5), name) ==
              if name in l5 then Some(l5[name]) else if name in l4 then Some(l4[name])
              else if name in l3 then Some(l3[name]) else if name in l2 then Some(l2[name]) else Get(l1, name)
  {
  }

  /**
   * `getExecutionContext`: the object spread of the five layers, later ones
   * overriding earlier ones. The mass table it is also passed is not used.
   */
  function ExecutionContext(constants: map<string, Num>, lists: map<string, seq<Num>>, custom: map<string, Value>): map<string, Value>
  {
    var scalars := map k | k in constants :: Scalar(constants[k]);
    var arrays := map k | k in lists :: List(lists[k]);
    Override(Override(Override(Override(StandardMath(), Aggregates()), custom), scalars), arrays)
  }

  /**
   * Looking a name up in the namespace gives the list of that name if any,
   * else the constant, else the custom function, else the aggregate, else
   * the math built-in.
   */
  lemma ContextLookup(constants: map<string, Num>, lists: map<string, seq<Num>>, custom: map<string, Value>, name: string)
    ensures Get(ExecutionContext(constants, lists, custom), name) == Lookup(name, constants, lists, custom)
  {
    var scalars := map k | k in constants :: Scalar(constants[k]);
    var arrays := map k | k in lists :: List(lists[k]);
    assert name in scalars <==> name in constants;
    assert name in arrays <==> name in lists;
    StackedLookup(StandardMath(), Aggregates(), custom, scalars, arrays, name);
  }

  /** No name outside the five layers appears in the namespace, and every name in them does. */
  lemma ContextNames(constants: map<string, Num>, lists: map<string, seq<Num>>, custom: map<string, Value>, name: string)
    ensures name in ExecutionContext(constants, lists, custom) <==>
              name in lists || name in constants || name in custom || name in Aggregates() || name in StandardMath()
  {
    ContextLookup(constants, lists, custom, name);
  }

  /** A constant shadows a custom function or built-in of the same name; a list shadows everything. */
  lemma ConstantsShadowFunctions(constants: map<string, Num>, lists: map<string, seq<Num>>, custom: map<string, Value>, name: string)
    requires name in constants && name !in lists
    ensures ExecutionContext(constants, lists, custom)[name] == Scalar(constants[name])
  {
    ContextLookup(constants, lists, custom, name);
  }

  // ---------------------------------------------------------------------------
  // sum and product

  /** The errors `sum` and `product` throw for an argument that is not an array. */
  datatype AggregateError = SumNeedsList | ProductNeedsList

  /** `arr.map(func)`, element by element. */
  function Apply(xs: seq<Num>, f: Num -> Num): (ys: seq<Num>)
    ensures |ys| == |xs| && forall i :: 0 <= i < |xs| ==> ys[i] == f(xs[i])
  {
    seq(|xs|, i requires 0 <= i < |xs| => f(xs[i]))
  }

  /** `xs.reduce((acc, x) => acc + x, 0)`: left to right, starting from 0. */
  function AddAll(xs: seq<Num>): Num
  {
    if xs == [] then Fin(0.0) else Add(AddAll(xs[..|xs| - 1]), xs[|xs| - 1])
  }

  /** `xs.reduce((acc, x) => acc * x, 1)`: left to right, starting from 1. */
  function MulAll(xs: seq<Num>): Num
  {
    if xs == [] then Fin(1.0) else Mul(MulAll(xs[..|xs| - 1]), xs[|xs| - 1])
  }

  /** `sum(arr, func)`: the sum of `func` over an array; anything else throws. */
  function Sum(arr: Value, func: Num -> Num): (r: Result<Num, AggregateError>)
    ensures r.Err? <==> !arr.List?
    ensures r.Err? ==> r.error == SumNeedsList
    ensures arr == List([]) ==> r == Ok(Fin(0.0))
  {
    if arr.List? then Ok(AddAll(Apply(arr.items, func))) else Err(SumNeedsList)
  }

  /** `sum(arr)`: `func` defaults to the identity. */
  function SumOf(arr: Value): Result<Num, AggregateError>
  {
    Sum(arr, x => x)
  }

  /** `product(arr)`: the product of an array; anything else throws. */
  function Product(arr: Value): (r: Result<Num, AggregateError>)
    ensures r.Err? <==> !arr.List?
    ensures r.Err? ==> r.error == ProductNeedsList
    ensures arr == List([]) ==> r == Ok(Fin(1.0))
  {
    if arr.List? then Ok(MulAll(arr.items)) else Err(ProductNeedsList)
  }

  /** Whether every number is finite. */
  predicate AllFinite(xs: seq<Num>)
  {
    forall i :: 0 <= i < |xs| ==> xs[i].Fin?
  }

  /** The finite numbers' values. */
  function Reals(xs: seq<Num>): (rs: seq<real>)
    requires AllFinite(xs)
    ensures |rs| == |xs| && forall i :: 0 <= i < |xs| ==> rs[i] == xs[i].r
  {
    seq(|xs|, i requires 0 <= i < |xs| => xs[i].r)
  }

  /** x[0] + x[1] + ... + x[n-1], grouped from the right. */
  function RealSum(rs: seq<real>): real
  {
    if rs == [] then 0.0 else rs[0] + RealSum(rs[1..])
  }

  /** x[0] * x[1] * ... * x[n-1], grouped from the right. */
  function RealProduct(rs: seq<real>): real
  {
    if rs == [] then 1.0 else rs[0] * RealProduct(rs[1..])
  }

  lemma {:induction false} RealSumSnoc(rs: seq<real>, x: real)
    ensures RealSum(rs + [x]) == RealSum(rs) + x
  {
    if rs != [] {
      assert (rs + [x])[1..] == rs[1..] + [x];
      RealSumSnoc(rs[1..], x);
    }
  }

  lemma {:induction false} RealProductSnoc(rs: seq<real>, x: real)
    ensures RealProduct(rs + [x]) == RealProduct(rs) * x
  {
    if rs != [] {
      assert (rs + [x])[1..] == rs[1..] + [x];
      RealProductSnoc(rs[1..], x);
    }
  }

  /** Over finite numbers `sum` is the arithmetic sum: `sum([a, b, c]) == a + b + c`. */
  lemma {:induction false} AddAllFinite(xs: seq<Num>)
    requires AllFinite(xs)
    ensures AddAll(xs) == Fin(RealSum(Reals(xs)))
  {
    if xs != [] {
      var n := |xs| - 1;
      AddAllFinite(xs[..n]);
      assert Reals(xs) == Reals(xs[..n]) + [xs[n].r];
      RealSumSnoc(Reals(xs[..n]), xs[n].r);
    }
  }

  /** Over finite numbers `product` is the arithmetic product. */
  lemma {:induction false} MulAllFinite(xs: seq<Num>)
    requires AllFinite(xs)
    ensures MulAll(xs) == Fin(RealProduct(Reals(xs)))
  {
    if xs != [] {
      var n := |xs| - 1;
      MulAllFinite(xs[..n]);
      assert Reals(xs) == Reals(xs[..n]) + [xs[n].r];
      RealProductSnoc(Reals(xs[..n]), xs[n].r);
    }
  }

  /** One NaN term makes the whole sum NaN. */
  lemma {:induction false} AddAllNaN(xs: seq<Num>, i: nat)
    requires i < |xs| && xs[i].NaN?
    ensures AddAll(xs).NaN?
  {
    var n := |xs| - 1;
    var prefix := AddAll(xs[..n]);
    assert AddAll(xs) == Add(prefix, xs[n]);
    if i < n {
      assert xs[..n][i] == xs[i];
      AddAllNaN(xs[..n], i);
      assert prefix.NaN?;
    }
  }

  /** One NaN factor makes the whole product NaN. */
  lemma {:induction false} MulAllNaN(xs: seq<Num>, i: nat)
    requires i < |xs| && xs[i].NaN?
    ensures MulAll(xs).NaN?
  {
    var n := |xs| - 1;
    var prefix := MulAll(xs[..n]);
    assert MulAll(xs) == Mul(prefix, xs[n]);
    if i < n {
      assert xs[..n][i] == xs[i];
      MulAllNaN(xs[..n], i);
      assert prefix.NaN?;
    }
  }

  /** `sum(arr, func)` over an array whose mapped values are finite is the sum of those values. */
  lemma SumFinite(items: seq<Num>, func: Num -> Num)
    requires AllFinite(Apply(items, func))
    ensures Sum(List(items), func) == Ok(Fin(RealSum(Reals(Apply(items, func)))))
  {
    AddAllFinite(Apply(items, func));
  }

  /** `sum(arr)` over an array of finite numbers is their arithmetic sum: `sum([a, b, c]) == a + b + c`. */
  lemma SumOfFinite(xs: seq<Num>)
    requires AllFinite(xs)
    ensures SumOf(List(xs)) == Ok(Fin(RealSum(Reals(xs))))
  {
    assert Apply(xs, x => x) == xs;
    SumFinite(xs, x => x);
  }

  // ---------------------------------------------------------------------------
  // fact

  /** 2 * 3 * ... * k, which is 1 when k < 2. */
  function ProductUpTo(k: int): (p: int)
    ensures p >= 1
  {
    if k < 2 then 1 else ProductUpTo(k - 1) * k
  }

  /** The textbook factorial. */
  function Factorial(k: nat): nat
  {
    if k == 0 then 1 else k * Factorial(k - 1)
  }

  /** For a natural number, `fact` is its factorial. */
  lemma {:induction false} ProductUpToIsFactorial(k: nat)
    ensures ProductUpTo(k) == Factorial(k)
  {
    if k >= 2 {
      ProductUpToIsFactorial(k - 1);
    }
  }

  /** What `fact(n)` returns: the product of the integers 2, 3, ... up to `n`. */
  function FactValue(n: Num): (r: Num)
    requires !n.PosInf?
  {
    if n.Fin? then Fin(ProductUpTo(n.r.Floor) as real) else Fin(1.0)
  }

  /** `fact(n)` depends only on the integer part of `n`, and is 1 below 2. */
  lemma FactValueOfReal(x: real)
    ensures FactValue(Fin(x)) == FactValue(Fin(x.Floor as real))
    ensures x < 2.0 ==> FactValue(Fin(x)) == Fin(1.0)
  {
  }

  /**
   * `fact`: `result *= i` for `i` from 2 while `i <= n`. For `n` = +Infinity
   * the source loop does not end, so that argument is excluded.
   */
  method Fact(n: Num) returns (result: Num)
    requires !n.PosInf?
    ensures result == FactValue(n)
  {
    result := Fin(1.0);
    var i := 2;
    while IntAtMost(i, n)
      invariant 2 <= i
      invariant !n.Fin? ==> i == 2
      invariant n.Fin? ==> i <= (if n.r.Floor + 1 < 2 then 2 else n.r.Floor + 1)
      invariant result == Fin(ProductUpTo(i - 1) as real)
      decreases if n.Fin? then n.r.Floor + 1 - i else 0
    {
      result := Mul(result, Fin(i as real));
      i := i + 1;
    }
  }
}
