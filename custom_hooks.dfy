/**
 * The custom hooks of `CustomHooksExample.jsx` that hold plain state:
 * `useWindowSize`'s breakpoint flags, `useToggle`, `useCounter` and `useForm`.
 * A hook instance is a class whose fields are its state cells; each callback is
 * a method, and one call stands for one event. The effect of each callback is
 * also given as a function on values, so that runs of events can be reasoned about.
 */
module CustomHooks {
  import opened Wrappers
  import JsText

  // ---------------------------------------------------------------------------
  // useWindowSize: the breakpoint flags

  datatype Breakpoints = Breakpoints(isMobile: bool, isTablet: bool, isDesktop: bool)

  /** The flags derived from the window width. */
  function BreakpointsOf(width: int): (b: Breakpoints)
    ensures b.isMobile <==> width < 768
    ensures b.isTablet <==> 768 <= width < 1024
    ensures b.isDesktop <==> 1024 <= width
  {
    Breakpoints(width < 768, width >= 768 && width < 1024, width >= 1024)
  }

  /** Every width falls under exactly one breakpoint, and wider never means a smaller class. */
  lemma ExactlyOneBreakpoint(width: int, wider: int)
    requires width <= wider
    ensures var b := BreakpointsOf(width);
      (b.isMobile && !b.isTablet && !b.isDesktop)
      || (!b.isMobile && b.isTablet && !b.isDesktop)
      || (!b.isMobile && !b.isTablet && b.isDesktop)
    ensures BreakpointsOf(width).isDesktop ==> BreakpointsOf(wider).isDesktop
    ensures BreakpointsOf(wider).isMobile ==> BreakpointsOf(width).isMobile
  {
  }

  // ---------------------------------------------------------------------------
  // useToggle

  datatype ToggleAction = Toggle | SetTrue | SetFalse | SetValue(v: bool)

  /** The value after one callback. */
  function ToggleStep(value: bool, a: ToggleAction): (next: bool)
    ensures a == Toggle ==> next == !value
    ensures a == SetTrue ==> next
    ensures a == SetFalse ==> !next
    ensures a.SetValue? ==> next == a.v
  {
    match a
    case Toggle => !value
    case SetTrue => true
    case SetFalse => false
    case SetValue(v) => v
  }

  /** Toggling twice restores the value; `setTrue` and `setFalse` are idempotent and ignore the old value. */
  lemma ToggleLaws(value: bool, other: bool)
    ensures ToggleStep(ToggleStep(value, Toggle), Toggle) == value
    ensures ToggleStep(ToggleStep(value, SetTrue), SetTrue) == ToggleStep(value, SetTrue)
    ensures ToggleStep(ToggleStep(value, SetFalse), SetFalse) == ToggleStep(value, SetFalse)
    ensures ToggleStep(value, SetTrue) == ToggleStep(other, SetTrue)
    ensures ToggleStep(value, SetFalse) == ToggleStep(other, SetFalse)
  {
  }

  /** A `useToggle(initialValue = false)` instance; `None` stands for an omitted argument. */
  class ToggleHook {
    var value: bool

    constructor(initialValue: Option<bool>)
      ensures initialValue.Some? ==> value == initialValue.value
      ensures initialValue.None? ==> !value
    {
      value := initialValue.GetOr(false);
    }

    method Toggle()
      modifies this
      ensures value == ToggleStep(old(value), ToggleAction.Toggle)
    {
      value := !value;
    }

    method SetTrue()
      modifies this
      ensures value == ToggleStep(old(value), ToggleAction.SetTrue)
    {
      value := true;
    }

    method SetFalse()
      modifies this
      ensures value == ToggleStep(old(value), ToggleAction.SetFalse)
    {
      value := false;
    }

    method SetValue(v: bool)
      modifies this
      ensures value == ToggleStep(old(value), ToggleAction.SetValue(v))
    {
      value := v;
    }
  }

  // ---------------------------------------------------------------------------
  // useCounter

  datatype CounterAction = Increment | Decrement | Reset | Set(v: int)

  /** The count after one callback of `useCounter(initialValue, step)`. */
  function CounterStep(count: int, initialValue: int, step: int, a: CounterAction): (next: int)
    ensures a == Increment ==> next == count + step
    ensures a == Decrement ==> next == count - step
    ensures a == Reset ==> next == initialValue
    ensures a.Set? ==> next == a.v
  {
    match a
    case Increment => count + step
    case Decrement => count - step
    case Reset => initialValue
    case Set(v) => v
  }

  /** The count after a run of callbacks. */
  function CounterRun(count: int, initialValue: int, step: int, actions: seq<CounterAction>): int
    decreases |actions|
  {
    if actions == [] then count
    else CounterRun(CounterStep(count, initialValue, step, actions[0]), initialValue, step, actions[1..])
  }

  /** `n` increments add `n * step`, `n` decrements subtract it. */
  lemma {:induction false} RepeatedCounterSteps(count: int, initialValue: int, step: int, n: nat)
    ensures CounterRun(count, initialValue, step, seq(n, _ => Increment)) == count + n * step
    ensures CounterRun(count, initialValue, step, seq(n, _ => Decrement)) == count - n * step
    decreases n
  {
    if n > 0 {
      assert seq(n, _ => Increment)[1..] == seq(n - 1, _ => Increment);
      assert seq(n, _ => Decrement)[1..] == seq(n - 1, _ => Decrement);
      RepeatedCounterSteps(count + step, initialValue, step, n - 1);
      RepeatedCounterSteps(count - step, initialValue, step, n - 1);
      assert count + step + (n - 1) * step == count + n * step;
      assert count - step - (n - 1) * step == count - n * step;
    }
  }

  /** Whatever came before, a reset ends on the initial value. */
  lemma {:induction false} ResetForgetsHistory(count: int, initialValue: int, step: int, actions: seq<CounterAction>)
    ensures CounterRun(count, initialValue, step, actions + [Reset]) == initialValue
    decreases |actions|
  {
    if actions == [] {
      assert actions + [Reset] == [Reset];
    } else {
      assert (actions + [Reset])[1..] == actions[1..] + [Reset];
      ResetForgetsHistory(CounterStep(count, initialValue, step, actions[0]), initialValue, step, actions[1..]);
    }
  }

  datatype SignFlags = SignFlags(isPositive: bool, isNegative: bool, isZero: bool)

  function SignFlagsOf(count: int): (f: SignFlags)
    ensures f.isPositive <==> count > 0
    ensures f.isNegative <==> count < 0
    ensures f.isZero <==> count == 0
  {
    SignFlags(count > 0, count < 0, count == 0)
  }

  /** Exactly one of the three flags holds. */
  lemma ExactlyOneSign(count: int)
    ensures var f := SignFlagsOf(count);
      (f.isPositive && !f.isNegative && !f.isZero)
      || (!f.isPositive && f.isNegative && !f.isZero)
      || (!f.isPositive && !f.isNegative && f.isZero)
  {
  }

  /** On the page the counter is `useCounter(0, 5)`: two increments show 10 and are flagged positive. */
  lemma PageCounter()
    ensures CounterRun(0, 0, 5, [Increment, Increment]) == 10
    ensures SignFlagsOf(CounterRun(0, 0, 5, [Increment, Increment])).isPositive
    ensures CounterRun(0, 0, 5, [Decrement]) == -5
  {
    RepeatedCounterSteps(0, 0, 5, 2);
    assert [Increment, Increment] == seq(2, _ => Increment);
  }

  /** A `useCounter(initialValue = 0, step = 1)` instance; `None` stands for an omitted argument. */
  class CounterHook {
    const initialValue: int
    const step: int
    var count: int

    constructor(initialValue: Option<int>, step: Option<int>)
      ensures this.initialValue == initialValue.GetOr(0) && this.step == step.GetOr(1)
      ensures count == this.initialValue
      ensures initialValue.None? ==> count == 0
      ensures step.None? ==> this.step == 1
    {
      this.initialValue := initialValue.GetOr(0);
      this.step := step.GetOr(1);
      count := initialValue.GetOr(0);
    }

    function Flags(): SignFlags
      reads this
    {
      SignFlagsOf(count)
    }

    method Increment()
      modifies this
      ensures count == CounterStep(old(count), initialValue, step, CounterAction.Increment)
    {
      count := count + step;
    }

    method Decrement()
      modifies this
      ensures count == CounterStep(old(count), initialValue, step, CounterAction.Decrement)
    {
      count := count - step;
    }

    method Reset()
      modifies this
      ensures count == CounterStep(old(count), initialValue, step, CounterAction.Reset)
    {
      count := initialValue;
    }

    method SetValue(v: int)
      modifies this
      ensures count == CounterStep(old(count), initialValue, step, CounterAction.Set(v))
    {
      count := v;
    }
  }

  // ---------------------------------------------------------------------------
  // useForm

  /**
   * One entry of a validation schema. An absent `minLength` is 0 (falsy), an absent
   * `pattern` or `message` is `None`; `pattern` stands for the regular expression's `test`.
   */
  datatype Rules = Rules(required: bool, minLength: nat, pattern: Option<string -> bool>, message: Option<string>)

  /** A field value as JavaScript sees it: a missing key reads as `undefined`, which is falsy like `""`. */
  function Lookup(values: map<string, string>, field: string): Option<string> {
    if field in values then Some(values[field]) else None
  }

  predicate Truthy(value: Option<string>) {
    value.Some? && value.value != ""
  }

  function RequiredMessage(field: string): string {
    field + " is required"
  }

  function MinLengthMessage(field: string, minLength: nat): string {
    field + " must be at least " + JsText.NatToString(minLength) + " characters"
  }

  function PatternMessage(field: string, message: Option<string>): string {
    if message.Some? && message.value != "" then message.value else field + " format is invalid"
  }

  /**
   * The error `validate` records for one schema field, if any: an empty value can only
   * fail `required`; a non-empty one fails `minLength` first and `pattern` second.
   */
  function FieldError(field: string, value: Option<string>, rules: Rules): (err: Option<string>)
    ensures !Truthy(value) ==> err == (if rules.required then Some(RequiredMessage(field)) else None)
    ensures Truthy(value) && |value.value| < rules.minLength ==>
      err == Some(MinLengthMessage(field, rules.minLength))
    ensures Truthy(value) && |value.value| >= rules.minLength && rules.pattern.Some? && !rules.pattern.value(value.value) ==>
      err == Some(PatternMessage(field, rules.message))
    ensures Truthy(value) && |value.value| >= rules.minLength && (rules.pattern.None? || rules.pattern.value(value.value)) ==>
      err == None
  {
    if rules.required && !Truthy(value) then
      Some(RequiredMessage(field))
    else if rules.minLength > 0 && Truthy(value) && |value.value| < rules.minLength then
      Some(MinLengthMessage(field, rules.minLength))
    else if rules.pattern.Some? && Truthy(value) && !rules.pattern.value(value.value) then
      Some(PatternMessage(field, rules.message))
    else
      None
  }

  /** The errors `validate(schema)` computes: one entry per schema field that fails, none for any other key. */
  function SchemaErrors(values: map<string, string>, schema: map<string, Rules>): (errors: map<string, string>)
    ensures errors.Keys <= schema.Keys
    ensures forall f :: f in schema ==>
      (f in errors <==> FieldError(f, Lookup(values, f), schema[f]).Some?)
    ensures forall f :: f in errors ==> Some(errors[f]) == FieldError(f, Lookup(values, f), schema[f])
  {
    map f | f in schema.Keys && FieldError(f, Lookup(values, f), schema[f]).Some? ::
      FieldError(f, Lookup(values, f), schema[f]).value
  }

  /** The errors recorded for the fields done so far. */
  function PartialErrors(values: map<string, string>, schema: map<string, Rules>, done: set<string>): map<string, string>
    requires done <= schema.Keys
  {
    map f | f in done && FieldError(f, Lookup(values, f), schema[f]).Some? ::
      FieldError(f, Lookup(values, f), schema[f]).value
  }

  /** `errors.field && touched.field`: the page shows a field's error only once it has been visited. */
  function ShowsError(errors: map<string, string>, touched: set<string>, field: string): (shown: bool)
    ensures shown <==> field in errors && errors[field] != "" && field in touched
  {
    field in errors && errors[field] != "" && field in touched
  }

  /** `handleChange`'s effect on the errors: a non-empty error for the field becomes `""`; the key stays. */
  function ClearError(errors: map<string, string>, name: string): (r: map<string, string>)
    ensures r.Keys == errors.Keys
    ensures name in errors ==> r[name] == ""
    ensures forall f :: f in errors && f != name ==> r[f] == errors[f]
  {
    if name in errors && errors[name] != "" then errors[name := ""] else errors
  }

  /** Typing keeps the key count, so a form with any error is still not valid afterwards, and the message is no longer shown. */
  lemma ClearErrorKeepsInvalid(errors: map<string, string>, touched: set<string>, name: string)
    ensures |ClearError(errors, name)| == |errors|
    ensures !ShowsError(ClearError(errors, name), touched, name)
  {
    assert ClearError(errors, name).Keys == errors.Keys;
  }

  /** The anchored pattern `/^[^\s@]+@[^\s@]+\.[^\s@]+$/`: the whole string is `x@y.z` with no whitespace or `@` in `x`, `y`, `z`. */
  predicate IsAnchoredEmail(s: string)
    ensures IsAnchoredEmail(s) ==> JsText.LooksLikeEmail(s)
  {
    if exists i, j | 0 < i < j < |s| :: AnchoredEmailAt(s, i, j) then
      var i, j :| 0 < i < j < |s| && AnchoredEmailAt(s, i, j);
      AnchoredMatchIsMatch(s, i, j);
      true
    else
      false
  }

  /** An anchored match at `i` and `j` is also a match of the contact form's unanchored `\S+@\S+\.\S+`. */
  lemma AnchoredMatchIsMatch(s: string, i: int, j: int)
    requires AnchoredEmailAt(s, i, j)
    ensures JsText.EmailAt(s, i, j) && JsText.LooksLikeEmail(s)
  {
    assert s[..i][i - 1] == s[i - 1];
    assert s[j + 1..][0] == s[j + 1];
    assert JsText.EmailAt(s, i, j);
    assert 0 < i < j < |s|;
  }

  predicate AnchoredEmailAt(s: string, i: int, j: int) {
    && 0 < i && i + 1 < j && j + 1 < |s|
    && s[i] == '@' && s[j] == '.'
    && NoSpaceOrAt(s[..i]) && NoSpaceOrAt(s[i + 1..j]) && NoSpaceOrAt(s[j + 1..])
  }

  predicate NoSpaceOrAt(s: string) {
    forall k :: 0 <= k < |s| ==> !JsText.IsWhitespace(s[k]) && s[k] != '@'
  }

  /** The values `useForm` starts from on the page. */
  const PageInitialValues: map<string, string> := map["name" := "", "email" := "", "message" := ""]

  /** The schema the page validates with. */
  const PageSchema: map<string, Rules> := map[
    "name" := Rules(true, 2, None, None),
    "email" := Rules(true, 0, Some(IsAnchoredEmail), Some("Please enter a valid email address")),
    "message" := Rules(true, 10, None, None)
  ]

  /** When every schema field is required and empty, every one of them gets the required message, and nothing else does. */
  lemma EmptyRequiredFields(values: map<string, string>, schema: map<string, Rules>)
    requires forall f :: f in schema ==> schema[f].required && !Truthy(Lookup(values, f))
    ensures SchemaErrors(values, schema) == map f | f in schema.Keys :: RequiredMessage(f)
  {
  }

  /** Submitting the untouched page form reports `name`, `email` and `message` as required. */
  lemma PageFormStartsInvalid()
    ensures SchemaErrors(PageInitialValues, PageSchema).Keys == {"name", "email", "message"}
    ensures forall f :: f in SchemaErrors(PageInitialValues, PageSchema) ==>
      SchemaErrors(PageInitialValues, PageSchema)[f] == f + " is required"
  {
    forall f | f in PageSchema
      ensures PageSchema[f].required && !Truthy(Lookup(PageInitialValues, f))
    {
      assert f in PageInitialValues && PageInitialValues[f] == "";
    }
    EmptyRequiredFields(PageInitialValues, PageSchema);
  }

  /** A one-letter name fails the length rule with the count spelled out. */
  lemma ShortNameMessage()
    ensures FieldError("name", Some("A"), PageSchema["name"]) == Some("name must be at least 2 characters")
  {
    assert JsText.NatToString(2) == "2";
    assert MinLengthMessage("name", 2) == "name must be at least 2 characters";
  }

  /** A `useForm(initialValues)` instance. */
  class FormHook {
    const initialValues: map<string, string>
    var values: map<string, string>
    var errors: map<string, string>
    /** The keys set to `true` in `touched`. */
    var touched: set<string>

    constructor(initialValues: Option<map<string, string>>)
      ensures this.initialValues == initialValues.GetOr(map[]) && values == this.initialValues
      ensures initialValues.None? ==> values == map[]
      ensures errors == map[] && touched == {}
    {
      this.initialValues := initialValues.GetOr(map[]);
      values := initialValues.GetOr(map[]);
      errors := map[];
      touched := {};
    }

    /** `isValid`: no error keys at all, even empty ones. */
    function IsValid(): (valid: bool)
      reads this
      ensures valid <==> errors == map[]
    {
      |errors| == 0
    }

    /** `isDirty`: the values differ from the initial ones. */
    function IsDirty(): (dirty: bool)
      reads this
      ensures !dirty <==> values.Keys == initialValues.Keys && forall k :: k in values ==> values[k] == initialValues[k]
    {
      values != initialValues
    }

    method HandleChange(name: string, value: string)
      modifies this
      ensures values == old(values)[name := value]
      ensures errors == ClearError(old(errors), name)
      ensures touched == old(touched)
    {
      values := values[name := value];
      if name in errors && errors[name] != "" {
        errors := errors[name := ""];
      }
    }

    method HandleBlur(name: string)
      modifies this
      ensures touched == old(touched) + {name}
      ensures values == old(values) && errors == old(errors)
    {
      touched := touched + {name};
    }

    method SetFieldValue(name: string, value: string)
      modifies this
      ensures values == old(values)[name := value]
      ensures errors == old(errors) && touched == old(touched)
    {
      values := values[name := value];
    }

    method SetFieldError(name: string, error: string)
      modifies this
      ensures errors == old(errors)[name := error]
      ensures values == old(values) && touched == old(touched)
    {
      errors := errors[name := error];
    }

    method Reset()
      modifies this
      ensures values == initialValues && errors == map[] && touched == {}
      ensures IsValid() && !IsDirty()
    {
      values := initialValues;
      errors := map[];
      touched := {};
    }

    /**
     * `validate(schema)`: every schema field is checked in turn and the errors are
     * replaced by what was found; the result says whether nothing was.
     */
    method Validate(schema: map<string, Rules>) returns (ok: bool)
      modifies this
      ensures errors == SchemaErrors(values, schema)
      ensures ok <==> IsValid()
      ensures values == old(values) && touched == old(touched)
    {
      var current := values;
      var newErrors: map<string, string> := map[];
      var remaining := schema.Keys;
      while remaining != {}
        invariant remaining <= schema.Keys
        invariant newErrors == PartialErrors(current, schema, schema.Keys - remaining)
        decreases |remaining|
      {
        var field :| field in remaining;
        var err := FieldError(field, Lookup(current, field), schema[field]);
        if err.Some? {
          newErrors := newErrors[field := err.value];
        }
        remaining := remaining - {field};
      }
      assert schema.Keys - remaining == schema.Keys;
      errors := newErrors;
      ok := |newErrors| == 0;
    }
  }
}
