/**
 * The synchronous demos of the ES6 practice module. Each returns fixed data; the
 * general operations they are built from (`map`, `filter`, `reduce`, spreads, default
 * parameters, template interpolation, destructuring) are modelled on all inputs, and
 * the fixed results follow from those.
 */
module Es6Practice {
  import opened Wrappers
  import JsText

  // ---------------------------------------------------------------------------
  // let and const

  datatype LetConstResult = LetConstResult(loopSum: int, objA: int, constReassignable: bool)

  /** `0 + 1 + … + (n - 1)`. */
  function SumBelow(n: nat): (s: int)
    ensures 2 * s == n * (n - 1)
  {
    if n == 0 then 0 else SumBelow(n - 1) + (n - 1)
  }

  /**
   * `demoLetConst`: a `let` accumulator summed over a loop, and a property of a
   * `const` object changed in place (the binding stays, the object changes).
   */
  method DemoLetConst() returns (r: LetConstResult)
    ensures r.loopSum == SumBelow(3) && r.loopSum == 3
    ensures r.objA == 2 && !r.constReassignable
  {
    var loopSum := 0;
    for i := 0 to 3
      invariant 2 * loopSum == i * (i - 1)
    {
      loopSum := loopSum + i;
    }
    var obj := map["a" := 1];
    obj := obj["a" := 2];
    var constReassignable := false;
    r := LetConstResult(loopSum, obj["a"], constReassignable);
  }

  // ---------------------------------------------------------------------------
  // arrow functions and array methods

  /** `xs.map(n => n * 2)`. */
  function Doubled(xs: seq<int>): (ys: seq<int>)
    ensures |ys| == |xs|
    ensures forall k :: 0 <= k < |xs| ==> ys[k] == 2 * xs[k]
  {
    seq(|xs|, k requires 0 <= k < |xs| => 2 * xs[k])
  }

  /**
   * `xs.filter(n => n % 2 === 0)`. JavaScript's `%` truncates, so a negative odd number
   * leaves -1 where Dafny's leaves 1; both are non-zero, so the test agrees.
   */
  function Evens(xs: seq<int>): (ys: seq<int>)
    ensures |ys| <= |xs|
    ensures forall k :: 0 <= k < |ys| ==> ys[k] % 2 == 0
  {
    if xs == [] then []
    else if xs[0] % 2 == 0 then [xs[0]] + Evens(xs[1..])
    else Evens(xs[1..])
  }

  /** `xs.reduce((acc, n) => acc + n, 0)`: folds from the left. */
  function Sum(xs: seq<int>): int
  {
    if xs == [] then 0 else Sum(xs[..|xs| - 1]) + xs[|xs| - 1]
  }

  /** `filter` keeps exactly the even elements: every even element of `xs` is kept. */
  lemma {:induction false} EvensKeepsEveryEven(xs: seq<int>, x: int)
    requires x in xs && x % 2 == 0
    ensures x in Evens(xs)
  {
    if xs[0] != x {
      assert x in xs[1..];
      EvensKeepsEveryEven(xs[1..], x);
    }
  }

  /** `filter` keeps only elements of the input. */
  lemma {:induction false} EvensFromInput(xs: seq<int>)
    ensures forall y :: y in Evens(xs) ==> y in xs
  {
    if xs != [] {
      EvensFromInput(xs[1..]);
    }
  }

  /** Filtering distributes over concatenation, so the kept elements keep their order. */
  lemma {:induction false} EvensAppend(xs: seq<int>, ys: seq<int>)
    ensures Evens(xs + ys) == Evens(xs) + Evens(ys)
  {
    if xs == [] {
      assert xs + ys == ys;
    } else {
      assert (xs + ys)[1..] == xs[1..] + ys;
      EvensAppend(xs[1..], ys);
    }
  }

  /** The sum of a concatenation is the sum of the parts. */
  lemma {:induction false} SumAppend(xs: seq<int>, ys: seq<int>)
    ensures Sum(xs + ys) == Sum(xs) + Sum(ys)
    decreases |ys|
  {
    if ys == [] {
      assert xs + ys == xs;
    } else {
      var zs := xs + ys;
      assert zs[..|zs| - 1] == xs + ys[..|ys| - 1];
      SumAppend(xs, ys[..|ys| - 1]);
    }
  }

  /** Doubling every element doubles the sum. */
  lemma {:induction false} SumDoubled(xs: seq<int>)
    ensures Sum(Doubled(xs)) == 2 * Sum(xs)
  {
    if xs != [] {
      var init := xs[..|xs| - 1];
      assert Doubled(xs)[..|xs| - 1] == Doubled(init);
      SumDoubled(init);
    }
  }

  datatype ArrowResult = ArrowResult(doubles: seq<int>, sampleSum: int)

  /** `(a, b) => a + b`. */
  function Add(a: int, b: int): int {
    a + b
  }

  /** `demoArrowFunctions`: `[1, 2, 3]` doubled, and `add(2, 3)`. */
  function DemoArrowFunctions(): (r: ArrowResult)
    ensures r.doubles == [2, 4, 6] && r.sampleSum == 5
  {
    ArrowResult(Doubled([1, 2, 3]), Add(2, 3))
  }

  datatype ArrayResult = ArrayResult(mapped: seq<int>, filtered: seq<int>, reduced: int)

  /** `map`, `filter` and `reduce` over any array, as `demoArrayMethods` applies them. */
  function ArrayMethods(arr: seq<int>): (r: ArrayResult)
    ensures |r.mapped| == |arr| && forall k :: 0 <= k < |arr| ==> r.mapped[k] == 2 * arr[k]
    ensures r.reduced == Sum(arr)
    ensures Sum(r.mapped) == 2 * r.reduced
    ensures forall x :: x in arr && x % 2 == 0 <==> x in r.filtered
  {
    SumDoubled(arr);
    EvensFromInput(arr);
    forall x | x in arr && x % 2 == 0
      ensures x in Evens(arr)
    {
      EvensKeepsEveryEven(arr, x);
    }
    ArrayResult(Doubled(arr), Evens(arr), Sum(arr))
  }

  /** `demoArrayMethods` on `[1, 2, 3, 4, 5]`. */
  function DemoArrayMethods(): (r: ArrayResult)
    ensures r.mapped == [2, 4, 6, 8, 10] && r.filtered == [2, 4] && r.reduced == 15
  {
    var arr := [1, 2, 3, 4, 5];
    assert Evens(arr) == [2, 4] by {
      assert Evens(arr[4..]) == [];
      assert Evens(arr[3..]) == [4];
      assert Evens(arr[2..]) == [4];
      assert Evens(arr[1..]) == [2, 4];
    }
    assert Sum(arr) == 15 by {
      assert Sum([1]) == 1 by { assert [1][..0] == []; }
      assert Sum([1, 2]) == 3 by { assert [1, 2][..1] == [1]; }
      assert Sum([1, 2, 3]) == 6 by { assert [1, 2, 3][..2] == [1, 2]; }
      assert Sum([1, 2, 3, 4]) == 10 by { assert [1, 2, 3, 4][..3] == [1, 2, 3]; }
      assert arr[..4] == [1, 2, 3, 4];
    }
    ArrayMethods(arr)
  }

  // ---------------------------------------------------------------------------
  // template literals

  datatype TemplateResult = TemplateResult(greeting: string, multiLine: string)

  /** `` `Hello, ${name}!` ``. */
  function Greeting(name: string): (g: string)
    ensures |g| == |name| + 8
    ensures g[..7] == "Hello, " && g[7..|g| - 1] == name && g[|g| - 1] == '!'
  {
    "Hello, " + name + "!"
  }

  lemma NoNewline(s: string)
    requires forall k :: 0 <= k < |s| ==> s[k] != '\n'
    ensures '\n' !in s
  {
  }

  /** The two-line template splits at its one line break into its two lines. */
  lemma TwoLines(multiLine: string)
    requires multiLine == "Line 1\nLine 2"
    ensures JsText.Split(multiLine, '\n') == ["Line 1", "Line 2"]
  {
    var lines := ["Line 1", "Line 2"];
    assert JsText.Join(lines, '\n') == multiLine;
    NoNewline("Line 1");
    NoNewline("Line 2");
    assert forall k :: 0 <= k < |lines| ==> '\n' !in lines[k];
    JsText.SplitJoin(lines, '\n');
  }

  /** `demoTemplateLiterals`: the greeting for "React Learner" and a two-line string. */
  function DemoTemplateLiterals(): (r: TemplateResult)
    ensures r.greeting == "Hello, React Learner!"
    ensures r.multiLine == "Line 1\nLine 2"
  {
    TemplateResult(Greeting("React Learner"), "Line 1\nLine 2")
  }

  // ---------------------------------------------------------------------------
  // destructuring

  datatype DestructuringResult = DestructuringResult(firstName: string, second: int, restNumbers: seq<int>)

  /** `const [first, second, ...rest] = nums`: the two leading elements and the remainder. */
  function HeadPair(nums: seq<int>): (r: (Option<int>, Option<int>, seq<int>))
    ensures |nums| >= 2 ==> r.0.Some? && r.1.Some? && [r.0.value, r.1.value] + r.2 == nums
    ensures |nums| < 2 ==> r.1 == None && r.2 == []
    ensures (r.0 == None) == (nums == [])
    ensures nums != [] ==> r.0 == Some(nums[0])
  {
    if |nums| >= 2 then (Some(nums[0]), Some(nums[1]), nums[2..])
    else if |nums| == 1 then (Some(nums[0]), None, [])
    else (None, None, [])
  }

  /** `demoDestructuring`: `firstName` out of the user record, `second` and the rest out of `[10, 20, 30, 40]`. */
  function DemoDestructuring(): (r: DestructuringResult)
    ensures r == DestructuringResult("Dipak", 20, [30, 40])
  {
    var user := map["firstName" := "Dipak", "role" := "Developer"];
    var parts := HeadPair([10, 20, 30, 40]);
    DestructuringResult(user["firstName"], parts.1.value, parts.2)
  }

  // ---------------------------------------------------------------------------
  // spread and rest

  /** `{...a, ...b}`: every key of either; on a shared key the later object wins. */
  function Merge<V>(a: map<string, V>, b: map<string, V>): (m: map<string, V>)
    ensures m.Keys == a.Keys + b.Keys
    ensures forall k :: k in b ==> m[k] == b[k]
    ensures forall k :: k in a && k !in b ==> m[k] == a[k]
  {
    a + b
  }

  /** `(...args) => args`. */
  function Collect(args: seq<int>): seq<int> {
    args
  }

  datatype SpreadRestResult = SpreadRestResult(merged: map<string, int>, collected: seq<int>, withExtra: map<string, int>)

  /** `demoSpreadRest`. */
  function DemoSpreadRest(): (r: SpreadRestResult)
    ensures r.merged == map["a" := 1, "b" := 2, "c" := 3]
    ensures r.collected == [1, 2, 3]
    ensures r.withExtra == map["x" := 1, "y" := 2, "z" := 9]
  {
    SpreadRestResult(
      Merge(Merge(map["a" := 1], map["b" := 2]), map["c" := 3]),
      Collect([1, 2, 3]),
      Merge(map["x" := 1, "y" := 2], map["z" := 9]))
  }

  // ---------------------------------------------------------------------------
  // default parameters and modules

  datatype DefaultParamsResult = DefaultParamsResult(sum: int)

  /** `demoDefaultParams(a = 5, b = 10)`: a missing (`undefined`) argument takes its default. */
  function DemoDefaultParams(a: Option<int>, b: Option<int>): (r: DefaultParamsResult)
    ensures a.Some? && b.Some? ==> r.sum == a.value + b.value
    ensures a.None? ==> r.sum == 5 + b.GetOr(10)
    ensures b.None? ==> r.sum == a.GetOr(5) + 10
  {
    DefaultParamsResult(a.GetOr(5) + b.GetOr(10))
  }

  /** The call the demo runner makes, `demoDefaultParams(7)`, and the call with no arguments. */
  lemma DefaultParamsCalls()
    ensures DemoDefaultParams(Some(7), None).sum == 17
    ensures DemoDefaultParams(None, None).sum == 15
  {
  }

  const ModulesNote := "This file uses ES modules via export/import."

  datatype ModulesResult = ModulesResult(note: string)

  /** `demoModules`: its fixed note. */
  function DemoModules(): (r: ModulesResult)
    ensures r.note == ModulesNote && |r.note| > 0
  {
    ModulesResult(ModulesNote)
  }
}
