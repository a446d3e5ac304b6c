/** The form validation engine (`useValidate`): three maps of form state,
    values, errors and touched flags, and a schema that gives each field an
    ordered rule chain. Every operation is a pure transition from one form
    state to the next. */
module Validate {
  import opened Wrappers
  import opened JsValue

  type Values = map<string, Value>

  /** A rule looks at the field's value and at all values (for cross-field
      rules) and returns an error message, or None when the value passes. */
  type Rule = (Value, Values) -> Option<string>

  /** Field name to rule chain. A field declared with no rules and a field
      declared with `undefined` rules behave alike, so both are `[]` here. */
  type Schema = map<string, seq<Rule>>

  datatype Form = Form(values: Values, errors: map<string, string>, touched: map<string, bool>)

  /** The result of `validateField`: its boolean and the next form state. */
  datatype Validated = Validated(ok: bool, form: Form)

  /** Both maps agree at `k`: absent from both, or present with equal values. */
  predicate AgreeAt<V(==)>(m: map<string, V>, m': map<string, V>, k: string) {
    (k in m <==> k in m') && (k in m ==> m[k] == m'[k])
  }

  function RulesOf(schema: Schema, key: string): seq<Rule> {
    if key in schema then schema[key] else []
  }

  /** Rule `i` is the first rule of the chain that fails. */
  predicate FailsFirstAt(rules: seq<Rule>, value: Value, all: Values, i: int) {
    && 0 <= i < |rules|
    && rules[i](value, all).Some?
    && forall j | 0 <= j < i :: rules[j](value, all).None?
  }

  /** Runs a rule chain in order and stops at the first failing rule. */
  function FirstError(rules: seq<Rule>, value: Value, all: Values): (r: Option<string>)
    ensures r.None? <==> forall i | 0 <= i < |rules| :: rules[i](value, all).None?
    ensures r.Some? ==> exists i :: FailsFirstAt(rules, value, all, i) && rules[i](value, all) == r
    decreases |rules|
  {
    if |rules| == 0 then None
    else if rules[0](value, all).Some? then
      assert FailsFirstAt(rules, value, all, 0);
      rules[0](value, all)
    else
      var r := FirstError(rules[1..], value, all);
      assert r.Some? ==> exists i :: FailsFirstAt(rules, value, all, i) && rules[i](value, all) == r by {
        if r.Some? {
          var i :| FailsFirstAt(rules[1..], value, all, i) && rules[1..][i](value, all) == r;
          assert FailsFirstAt(rules, value, all, i + 1);
        }
      }
      assert r.None? ==> forall i | 0 <= i < |rules| :: rules[i](value, all).None? by {
        if r.None? {
          forall i | 0 < i < |rules| ensures rules[i](value, all).None? {
            assert rules[i] == rules[1..][i - 1];
          }
        }
      }
      r
  }

  /** Rules after the first failing one are never consulted: appending more
      rules to a chain that already fails does not change its message. */
  lemma {:induction false} LaterRulesNotConsulted(rules: seq<Rule>, later: seq<Rule>, value: Value, all: Values)
    requires FirstError(rules, value, all).Some?
    ensures FirstError(rules + later, value, all) == FirstError(rules, value, all)
    decreases |rules|
  {
    var both := rules + later;
    assert both[0] == rules[0];
    if rules[0](value, all).None? {
      assert both[1..] == rules[1..] + later;
      LaterRulesNotConsulted(rules[1..], later, value, all);
      assert FirstError(both, value, all) == FirstError(both[1..], value, all);
    } else {
      assert FirstError(both, value, all) == rules[0](value, all);
    }
  }

  /** A fresh form: a copy of the initial values, no errors, nothing touched. */
  function Create(initial: Values): (f: Form)
    ensures f.values == initial && f.errors == map[] && f.touched == map[]
  {
    Form(initial, map[], map[])
  }

  /** `setValues`: replaces the whole value record, nothing else. */
  function SetValues(f: Form, next: Values): (r: Form)
    ensures r.values == next && r.errors == f.errors && r.touched == f.touched
  {
    f.(values := next)
  }

  /** `setField`: replaces one value; no validation runs and the field is
      not touched. */
  function SetField(f: Form, key: string, v: Value): (r: Form)
    ensures key in r.values && r.values[key] == v
    ensures r.values.Keys == f.values.Keys + {key}
    ensures forall k | k != key :: AgreeAt(r.values, f.values, k)
    ensures r.errors == f.errors && r.touched == f.touched
  {
    f.(values := f.values[key := v])
  }

  /** `validateField`: runs the field's rule chain against the current
      values. On the first failing rule its message is recorded and the
      answer is false; when every rule passes (or there are none) the
      field's error is removed and the answer is true. No other field's
      error changes. */
  function ValidateField(schema: Schema, f: Form, key: string): (r: Validated)
    ensures r.form.values == f.values && r.form.touched == f.touched
    ensures forall k | k != key :: AgreeAt(r.form.errors, f.errors, k)
    ensures r.ok <==> key !in r.form.errors
    ensures r.ok <==> forall i | 0 <= i < |RulesOf(schema, key)| ::
      RulesOf(schema, key)[i](Get(f.values, key), f.values).None?
    ensures !r.ok ==> exists i ::
      && FailsFirstAt(RulesOf(schema, key), Get(f.values, key), f.values, i)
      && r.form.errors[key] == RulesOf(schema, key)[i](Get(f.values, key), f.values).value
  {
    var rules := RulesOf(schema, key);
    if |rules| == 0 then
      Validated(true, f.(errors := f.errors - {key}))
    else
      match FirstError(rules, Get(f.values, key), f.values)
      case Some(msg) => Validated(false, f.(errors := f.errors[key := msg]))
      case None => Validated(true, f.(errors := f.errors - {key}))
  }

  /** Validating a field twice in a row gives the same answer and state as
      validating it once. */
  lemma ValidateFieldIdempotent(schema: Schema, f: Form, key: string)
    ensures ValidateField(schema, ValidateField(schema, f, key).form, key) == ValidateField(schema, f, key)
  {
    var g := ValidateField(schema, f, key).form;
    var h := ValidateField(schema, g, key).form;
    assert h.errors == g.errors by {
      assert h.errors.Keys == g.errors.Keys;
    }
  }

  /** The error map after a field's outcome is recorded: the message on
      failure, no entry on success. */
  function Record(errors: map<string, string>, key: string, outcome: Option<string>): map<string, string> {
    match outcome
    case Some(msg) => errors[key := msg]
    case None => errors - {key}
  }

  /** `validateField` records the outcome of the field's rule chain, which
      depends on the values alone. */
  lemma ValidateFieldRecords(schema: Schema, f: Form, key: string)
    ensures ValidateField(schema, f, key).form
         == f.(errors := Record(f.errors, key, FirstError(RulesOf(schema, key), Get(f.values, key), f.values)))
  {
  }

  /** Recording outcomes for two different keys commutes. */
  lemma RecordsCommute(e: map<string, string>, k1: string, o1: Option<string>, k2: string, o2: Option<string>)
    requires k1 != k2
    ensures Record(Record(e, k1, o1), k2, o2) == Record(Record(e, k2, o2), k1, o1)
  {
    var a := Record(Record(e, k1, o1), k2, o2);
    var b := Record(Record(e, k2, o2), k1, o1);
    assert a.Keys == b.Keys;
  }

  /** Validating two different fields gives the same state in either
      order, so the order in which `validateAll` visits the schema keys
      does not matter. */
  lemma ValidateFieldsCommute(schema: Schema, f: Form, k1: string, k2: string)
    requires k1 != k2
    ensures ValidateField(schema, ValidateField(schema, f, k1).form, k2).form
         == ValidateField(schema, ValidateField(schema, f, k2).form, k1).form
  {
    var o1 := FirstError(RulesOf(schema, k1), Get(f.values, k1), f.values);
    var o2 := FirstError(RulesOf(schema, k2), Get(f.values, k2), f.values);
    var f1 := ValidateField(schema, f, k1).form;
    var f2 := ValidateField(schema, f, k2).form;
    ValidateFieldRecords(schema, f, k1);
    ValidateFieldRecords(schema, f, k2);
    ValidateFieldRecords(schema, f1, k2);
    ValidateFieldRecords(schema, f2, k1);
    RecordsCommute(f.errors, k1, o1, k2, o2);
  }

  /** Runs `validateField` on every schema key (not every value key), with
      no short-circuit across fields. */
  method ValidateSchemaKeys(schema: Schema, f: Form) returns (g: Form)
    ensures g.values == f.values && g.touched == f.touched
    ensures forall k | k in schema :: AgreeAt(g.errors, ValidateField(schema, f, k).form.errors, k)
    ensures forall k | k !in schema :: AgreeAt(g.errors, f.errors, k)
  {
    g := f;
    var todo := schema.Keys;
    while todo != {}
      invariant todo <= schema.Keys
      invariant g.values == f.values && g.touched == f.touched
      invariant forall k | k in schema && k !in todo :: AgreeAt(g.errors, ValidateField(schema, f, k).form.errors, k)
      invariant forall k | k !in schema || k in todo :: AgreeAt(g.errors, f.errors, k)
      decreases todo
    {
      var key :| key in todo;
      g := ValidateField(schema, g, key).form;
      todo := todo - {key};
    }
  }

  /** What `validateAll` reports once every field is validated: true unless
      some schema key holds a truthy, that is non-empty, error message. */
  predicate NoTruthyError(schema: Schema, errors: map<string, string>) {
    forall k | k in schema.Keys :: !(k in errors && errors[k] != "")
  }

  /** `validateAll`: validates every schema key and reports true iff no
      schema key holds a non-empty error message afterwards. */
  method ValidateAll(schema: Schema, f: Form) returns (ok: bool, g: Form)
    ensures g.values == f.values && g.touched == f.touched
    ensures forall k | k in schema :: AgreeAt(g.errors, ValidateField(schema, f, k).form.errors, k)
    ensures forall k | k !in schema :: AgreeAt(g.errors, f.errors, k)
    ensures ok <==> forall k | k in schema :: k !in g.errors || g.errors[k] == ""
  {
    g := ValidateSchemaKeys(schema, f);
    ok := NoTruthyError(schema, g.errors);
  }

  /** A rule that fails with an empty message makes `validateField` answer
      false while `validateAll` still answers true. */
  lemma EmptyMessagePassesValidateAll(f: Form, key: string)
    ensures var schema: Schema := map[key := [(v: Value, all: Values) => Some("")]];
      && !ValidateField(schema, f, key).ok
      && NoTruthyError(schema, ValidateField(schema, f, key).form.errors)
  {
    var schema: Schema := map[key := [(v: Value, all: Values) => Some("")]];
    assert schema[key][0](Get(f.values, key), f.values) == Some("");
  }

  /** `validateAll` as evidently intended: true iff every schema key passed
      `validateField`, whatever its message. */
  method ValidateAllStrict(schema: Schema, f: Form) returns (ok: bool, g: Form)
    ensures g.values == f.values && g.touched == f.touched
    ensures forall k | k in schema :: AgreeAt(g.errors, ValidateField(schema, f, k).form.errors, k)
    ensures forall k | k !in schema :: AgreeAt(g.errors, f.errors, k)
    ensures ok <==> forall k | k in schema :: ValidateField(schema, f, k).ok
  {
    g := ValidateSchemaKeys(schema, f);
    ok := forall k | k in schema.Keys :: k !in g.errors;
  }

  /** `touchField`: marks one field as touched, independent of validity. */
  function TouchField(f: Form, key: string): (r: Form)
    ensures key in r.touched && r.touched[key]
    ensures r.touched.Keys == f.touched.Keys + {key}
    ensures forall k | k != key :: AgreeAt(r.touched, f.touched, k)
    ensures r.values == f.values && r.errors == f.errors
  {
    f.(touched := f.touched[key := true])
  }

  /** `touchAll`: the touched map becomes exactly the value keys, all true;
      flags of keys that have no value are dropped. */
  function TouchAll(f: Form): (r: Form)
    ensures r.touched.Keys == f.values.Keys
    ensures forall k | k in r.touched :: r.touched[k]
    ensures r.values == f.values && r.errors == f.errors
  {
    f.(touched := map k | k in f.values :: true)
  }

  /** Touching a field that has a value after `touchAll` changes nothing;
      touching one without a value adds just that flag. */
  lemma TouchFieldAfterTouchAll(f: Form, key: string)
    ensures key in f.values ==> TouchField(TouchAll(f), key) == TouchAll(f)
    ensures key !in f.values ==> TouchField(TouchAll(f), key).touched.Keys == f.values.Keys + {key}
  {
    var t := TouchAll(f);
    if key in f.values {
      assert TouchField(t, key).touched == t.touched;
    }
  }

  /** `reset(next?)`: clears errors and touched flags and installs `next`,
      or the initial values when no `next` is given. */
  function Reset(initial: Values, next: Option<Values>): (r: Form)
    ensures r.errors == map[] && r.touched == map[]
    ensures next.Some? ==> r.values == next.value
    ensures next.None? ==> r == Create(initial)
  {
    Form(next.GetOr(initial), map[], map[])
  }
}
