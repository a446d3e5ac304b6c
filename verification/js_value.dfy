/** The loosely typed JavaScript values that arrive as route-query entries
    and as form-field values, and the two ways the source turns them into
    strings. */
module JsValue {

  /** A JavaScript value as far as the model needs to tell values apart.
      `Other` stands for numbers, booleans and plain objects and carries the
      text that `String(v)` gives for it. */
  datatype Value =
    | Undefined
    | Null
    | Str(s: string)
    | Arr(items: seq<Value>)
    | Other(text: string)

  /** Property access on a record: a missing key reads as `undefined`. */
  function Get(m: map<string, Value>, k: string): (v: Value)
    ensures k !in m ==> v == Undefined
    ensures k in m ==> v == m[k]
  {
    if k in m then m[k] else Undefined
  }

  /** A record of strings seen as a record of loose values. */
  function Lift(q: map<string, string>): (r: map<string, Value>)
    ensures r.Keys == q.Keys
    ensures forall k | k in q :: r[k] == Str(q[k])
  {
    map k | k in q :: Str(q[k])
  }

  /** How a single query entry reads as one string (`toQueryString`): a
      string as itself, an array by its first element when that is a
      string, and anything else as the empty string. The same conversion is
      written out inline in `normalizeQuery`. */
  function ToQueryString(v: Value): (r: string)
    ensures v.Str? ==> r == v.s
    ensures v.Arr? && v.items != [] && v.items[0].Str? ==> r == v.items[0].s
    ensures r != [] ==> v.Str? || (v.Arr? && v.items != [] && v.items[0].Str?)
  {
    match v
    case Str(s) => s
    case Arr(items) => if items != [] && items[0].Str? then items[0].s else ""
    case _ => ""
  }

  /** Joins strings with a comma, as `Array.prototype.join` does by default. */
  function JoinWithComma(parts: seq<string>): string {
    if |parts| == 0 then ""
    else if |parts| == 1 then parts[0]
    else parts[0] + "," + JoinWithComma(parts[1..])
  }

  /** Joining `parts + [p]` puts a comma between the join of `parts` and
      `p`. */
  lemma {:induction false} JoinWithCommaSnoc(parts: seq<string>, p: string)
    requires parts != []
    ensures JoinWithComma(parts + [p]) == JoinWithComma(parts) + "," + p
    decreases |parts|
  {
    var all := parts + [p];
    assert all[0] == parts[0];
    assert all[1..] == parts[1..] + [p];
    if |parts| > 1 {
      JoinWithCommaSnoc(parts[1..], p);
    }
  }

  /** `String(v)`. An array renders its elements joined by commas, with
      `undefined` and `null` elements rendered as empty strings. */
  function JsString(v: Value): string
    decreases v
  {
    match v
    case Undefined => "undefined"
    case Null => "null"
    case Str(s) => s
    case Other(text) => text
    case Arr(items) =>
      JoinWithComma(seq(|items|, i requires 0 <= i < |items| =>
        if items[i].Undefined? || items[i].Null? then "" else JsString(items[i])))
  }

  /** What `String(v)` gives for the values the `email` rule sees: a string
      is itself, an empty array is the empty string, and a one-element
      array renders as its element, with `undefined` and `null` rendering
      as the empty string. */
  lemma JsStringBasics(s: string, x: Value)
    ensures JsString(Str(s)) == s
    ensures JsString(Arr([])) == ""
    ensures JsString(Arr([x])) == if x.Undefined? || x.Null? then "" else JsString(x)
  {
    var parts := seq(1, i requires 0 <= i < 1 => if [x][i].Undefined? || [x][i].Null? then "" else JsString([x][i]));
    assert JoinWithComma(parts) == parts[0];
  }

  /** `String(v)` of an array with one more element: the rendering of the
      shorter array, a comma, and the new element, with `undefined` and
      `null` rendering as the empty string. */
  lemma JsStringArrSnoc(xs: seq<Value>, x: Value)
    requires xs != []
    ensures JsString(Arr(xs + [x])) ==
      JsString(Arr(xs)) + "," + (if x.Undefined? || x.Null? then "" else JsString(x))
  {
    var all := xs + [x];
    var before := seq(|xs|, i requires 0 <= i < |xs| =>
      if xs[i].Undefined? || xs[i].Null? then "" else JsString(xs[i]));
    var after := seq(|all|, i requires 0 <= i < |all| =>
      if all[i].Undefined? || all[i].Null? then "" else JsString(all[i]));
    var last := if x.Undefined? || x.Null? then "" else JsString(x);
    assert after == before + [last];
    JoinWithCommaSnoc(before, last);
  }
}
