/** The two built-in rules of the validation engine, `required` and
    `email`, each parameterised by its message. */
module Rules {
  import opened Wrappers
  import opened JsText
  import opened JsValue
  import opened Validate

  /** `required(msg)`: fails on `undefined`, `null` and strings that are
      empty after trimming. */
  function Required(msg: string): (rule: Rule)
    ensures forall v, all :: rule(v, all).Some? <==> (v.Undefined? || v.Null? || (v.Str? && AllWhitespace(v.s)))
    ensures forall v, all :: rule(v, all).Some? ==> rule(v, all).value == msg
  {
    (v: Value, all: Values) =>
      if v.Undefined? || v.Null? then Some(msg)
      else if v.Str? && Trim(v.s) == "" then Some(msg)
      else None
  }

  /** A character the class `[^\s@]` accepts. */
  predicate PlainChar(c: char) {
    !IsWhitespace(c) && c != '@'
  }

  /** A non-empty run `[^\s@]+`. */
  predicate PlainRun(s: string) {
    s != [] && forall k | 0 <= k < |s| :: PlainChar(s[k])
  }

  /** What the regular expression `^[^\s@]+@[^\s@]+\.[^\s@]+$` accepts:
      the string splits as local `@` domain `.` tld around the one `@` at
      index `i` and a `.` at index `j`, each part a non-empty plain run. */
  ghost predicate MatchesEmailPattern(s: string) {
    exists i, j | 0 <= i < j < |s| ::
      && s[i] == '@' && s[j] == '.'
      && PlainRun(s[..i]) && PlainRun(s[i + 1..j]) && PlainRun(s[j + 1..])
  }

  /** Index of the first occurrence of `c` in `s`. */
  function IndexOf(s: string, c: char): (r: Option<nat>)
    ensures r.None? ==> c !in s
    ensures r.Some? ==> r.value < |s| && s[r.value] == c && c !in s[..r.value]
    decreases |s|
  {
    if s == [] then None
    else if s[0] == c then Some(0)
    else match IndexOf(s[1..], c)
      case None => None
      case Some(i) => assert s[..i + 1] == [s[0]] + s[1..][..i]; Some(i + 1)
  }

  /** The e-mail shape check the rule runs: no whitespace anywhere, exactly
      one `@`, not first, and a `.` in the domain part that is neither its
      first nor its last character. */
  function EmailShape(s: string): bool {
    && (forall k | 0 <= k < |s| :: !IsWhitespace(s[k]))
    && match IndexOf(s, '@')
       case None => false
       case Some(i) =>
         var d := s[i + 1..];
         i > 0 && '@' !in d && |d| >= 3 && '.' in d[1..|d| - 1]
  }

  /** Every string the shape check accepts matches the regular expression. */
  lemma EmailShapeSound(s: string)
    requires EmailShape(s)
    ensures MatchesEmailPattern(s)
  {
    var i := IndexOf(s, '@').value;
    var d := s[i + 1..];
    var m :| 0 <= m < |d[1..|d| - 1]| && d[1..|d| - 1][m] == '.';
    var j := i + 2 + m;
    assert s[j] == '.';
    assert forall k | 0 <= k < |d| :: d[k] != '@';
    assert PlainRun(s[..i]);
    assert s[i + 1..j] == d[..m + 1];
    assert PlainRun(s[i + 1..j]);
    assert s[j + 1..] == d[m + 2..];
    assert PlainRun(s[j + 1..]);
  }

  /** A string of the form local `@` domain `.` tld has no whitespace and no
      `@` outside index `i`. */
  lemma PatternParts(s: string, i: nat, j: nat)
    requires i < j < |s| && s[i] == '@' && s[j] == '.'
    requires PlainRun(s[..i]) && PlainRun(s[i + 1..j]) && PlainRun(s[j + 1..])
    ensures forall k | 0 <= k < |s| :: !IsWhitespace(s[k]) && (k != i ==> s[k] != '@')
  {
    forall k | 0 <= k < |s| ensures !IsWhitespace(s[k]) && (k != i ==> s[k] != '@') {
      if k < i { assert s[k] == s[..i][k]; }
      else if i < k < j { assert s[k] == s[i + 1..j][k - i - 1]; }
      else if j < k { assert s[k] == s[j + 1..][k - j - 1]; }
    }
  }

  /** Every string the regular expression matches passes the shape check. */
  lemma EmailShapeComplete(s: string)
    requires MatchesEmailPattern(s)
    ensures EmailShape(s)
  {
    var i, j :| 0 <= i < j < |s| && s[i] == '@' && s[j] == '.'
      && PlainRun(s[..i]) && PlainRun(s[i + 1..j]) && PlainRun(s[j + 1..]);
    PatternParts(s, i, j);
    var r := IndexOf(s, '@');
    assert s[..i + 1][i] == '@';
    assert r == Some(i);
    var d := s[i + 1..];
    assert '@' !in d by {
      forall k | 0 <= k < |d| ensures d[k] != '@' { assert d[k] == s[i + 1 + k]; }
    }
    assert d[1..|d| - 1][j - i - 2] == '.';
  }

  /** The shape check accepts exactly the strings the regular expression
      matches. */
  lemma EmailShapeMatchesPattern(s: string)
    ensures EmailShape(s) <==> MatchesEmailPattern(s)
  {
    if EmailShape(s) { EmailShapeSound(s); }
    if MatchesEmailPattern(s) { EmailShapeComplete(s); }
  }

  /** `email(msg)`: `undefined`, `null` and the empty string pass;
      anything else passes iff its trimmed string form has the e-mail shape. */
  function Email(msg: string): (rule: Rule)
    ensures forall v, all :: rule(v, all).None? <==>
      (v == Undefined || v == Null || v == Str("") || MatchesEmailPattern(Trim(JsString(v))))
    ensures forall v, all :: rule(v, all).Some? ==> rule(v, all).value == msg
  {
    var rule := (v: Value, all: Values) =>
      if v == Undefined || v == Null || v == Str("") then None
      else if EmailShape(Trim(JsString(v))) then None
      else Some(msg);
    assert forall s :: EmailShape(s) <==> MatchesEmailPattern(s) by {
      forall s ensures EmailShape(s) <==> MatchesEmailPattern(s) { EmailShapeMatchesPattern(s); }
    }
    rule
  }

  /** With `[required, email]` on an empty field the `required` message is
      reported, not the `email` one: the chain stops at the first failure. */
  lemma RequiredBeforeEmail(f: Form, key: string, requiredMsg: string, emailMsg: string)
    requires Get(f.values, key) == Str("")
    ensures var schema: Schema := map[key := [Required(requiredMsg), Email(emailMsg)]];
      var r := ValidateField(schema, f, key);
      !r.ok && r.form.errors[key] == requiredMsg
  {
    var rules := [Required(requiredMsg), Email(emailMsg)];
    var schema: Schema := map[key := rules];
    assert RulesOf(schema, key) == rules;
    assert AllWhitespace("");
    assert rules[0](Str(""), f.values) == Some(requiredMsg);
    assert FirstError(rules, Str(""), f.values) == Some(requiredMsg);
  }
}
