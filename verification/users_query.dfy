/** The users list-query codec (`parseUsersQuery` / `buildUsersQuery`):
    converts between the typed list state `{page, limit, search}` and the
    sparse string query that appears in the address bar. */
module UsersQuery {
  import opened Wrappers
  import opened JsText
  import opened JsNumber
  import opened JsValue

  const DefaultPage: int := 1
  const DefaultLimit: int := 40

  datatype ListQuery = ListQuery(page: int, limit: int, search: string)

  const Defaults: ListQuery := ListQuery(DefaultPage, DefaultLimit, "")

  /** The states `parseUsersQuery` can produce, and on which the codec
      round-trips: positive page and limit, a search with no surrounding
      whitespace. */
  predicate WellFormed(s: ListQuery) {
    s.page >= 1 && s.limit >= 1 && Trimmed(s.search)
  }

  /** `parseIntClamp`: the number at the start of the entry, or the
      fallback when the entry is empty, does not start with a number, or
      the number is below `min`. */
  function ParseIntClamp(v: Value, min: int, fallback: int): (r: int)
    ensures r == fallback || (r >= min && ParseInt(ToQueryString(v)) == Some(r))
    ensures ParseInt(ToQueryString(v)).None? ==> r == fallback
    ensures ParseInt(ToQueryString(v)).Some? ==>
      r == (if ParseInt(ToQueryString(v)).value < min then fallback else ParseInt(ToQueryString(v)).value)
  {
    var s := ToQueryString(v);
    if s == "" then fallback
    else match ParseInt(s)
      case None => fallback
      case Some(n) => if n < min then fallback else n
  }

  /** `parseUsersQuery`: total; every entry that is missing or malformed
      falls back to its default, and the search is trimmed. */
  function ParseUsersQuery(q: map<string, Value>): (s: ListQuery)
    ensures WellFormed(s)
    ensures ToQueryString(Get(q, "page")) == "" ==> s.page == DefaultPage
    ensures ToQueryString(Get(q, "limit")) == "" ==> s.limit == DefaultLimit
    ensures s.search == Trim(ToQueryString(Get(q, "search")))
    ensures var n := ParseInt(ToQueryString(Get(q, "page")));
      s.page == if n.Some? && n.value >= 1 then n.value else DefaultPage
    ensures var n := ParseInt(ToQueryString(Get(q, "limit")));
      s.limit == if n.Some? && n.value >= 1 then n.value else DefaultLimit
  {
    ListQuery(
      ParseIntClamp(Get(q, "page"), 1, DefaultPage),
      ParseIntClamp(Get(q, "limit"), 1, DefaultLimit),
      Trim(ToQueryString(Get(q, "search"))))
  }

  /** `buildUsersQuery`: the canonical minimal query. A key is present
      exactly when its field differs from the default, and no value is
      empty. */
  function BuildUsersQuery(s: ListQuery): (q: map<string, string>)
    ensures q.Keys <= {"page", "limit", "search"}
    ensures "page" in q <==> s.page != DefaultPage
    ensures "limit" in q <==> s.limit != DefaultLimit
    ensures "search" in q <==> s.search != ""
    ensures "page" in q ==> q["page"] == NumberToString(s.page)
    ensures "limit" in q ==> q["limit"] == NumberToString(s.limit)
    ensures "search" in q ==> q["search"] == s.search
    ensures forall k | k in q :: q[k] != ""
  {
    var withPage: map<string, string> := if s.page != DefaultPage then map["page" := NumberToString(s.page)] else map[];
    var withLimit := if s.limit != DefaultLimit then withPage["limit" := NumberToString(s.limit)] else withPage;
    if s.search != "" then withLimit["search" := s.search] else withLimit
  }

  /** `parseIntClamp` reads an entry only through its string form. */
  lemma ClampReadsOnlyQueryString(a: Value, b: Value, min: int, fallback: int)
    requires ToQueryString(a) == ToQueryString(b)
    ensures ParseIntClamp(a, min, fallback) == ParseIntClamp(b, min, fallback)
  {
  }

  /** `parseUsersQuery` reads a query only through the string forms of its
      three entries. */
  lemma ParseReadsOnlyQueryStrings(q1: map<string, Value>, q2: map<string, Value>)
    requires ToQueryString(Get(q1, "page")) == ToQueryString(Get(q2, "page"))
    requires ToQueryString(Get(q1, "limit")) == ToQueryString(Get(q2, "limit"))
    requires ToQueryString(Get(q1, "search")) == ToQueryString(Get(q2, "search"))
    ensures ParseUsersQuery(q1) == ParseUsersQuery(q2)
  {
    ClampReadsOnlyQueryString(Get(q1, "page"), Get(q2, "page"), 1, DefaultPage);
    ClampReadsOnlyQueryString(Get(q1, "limit"), Get(q2, "limit"), 1, DefaultLimit);
  }

  /** `parseInt` skips leading zeros. */
  lemma ParseIntLeadingZero()
    ensures ParseInt("07") == Some(7)
  {
    var d := "07";
    assert d[..1] == "0" && d[..1][..0] == [];
    assert DigitsValue(d) == 7;
    assert d + [] == d;
    ParseIntOfRun(d, []);
  }

  /** `parseInt` ignores what follows the digit run. */
  lemma ParseIntTrailingGarbage()
    ensures ParseInt("3abc") == Some(3)
  {
    var d := "3";
    assert d[..0] == [];
    assert DigitsValue(d) == 3;
    assert d + "abc" == "3abc";
    ParseIntOfRun(d, "abc");
  }

  /** `parseInt("40")` is 40, the default limit. */
  lemma ParseIntForty()
    ensures ParseInt("40") == Some(40)
  {
    var d := "40";
    assert d[..1] == "4" && d[..1][..0] == [];
    assert DigitsValue(d) == 40;
    assert d + [] == d;
    ParseIntOfRun(d, []);
  }

  /** `parseInt` reads zero. */
  lemma ParseIntZero()
    ensures ParseInt("0") == Some(0)
  {
    var d := "0";
    assert d[..0] == [];
    assert DigitsValue(d) == 0;
    assert d + [] == d;
    ParseIntOfRun(d, []);
  }

  /** Entries need not be canonical: a leading zero and trailing garbage
      are read the way `parseInt` reads them. */
  lemma NonCanonicalEntries(q: map<string, Value>)
    requires q == map["page" := Str("07"), "limit" := Str("3abc")]
    ensures ParseUsersQuery(q) == ListQuery(7, 3, "")
  {
    assert ToQueryString(Get(q, "page")) == "07";
    assert ToQueryString(Get(q, "limit")) == "3abc";
    assert Get(q, "search") == Undefined;
    ParseIntLeadingZero();
    ParseIntTrailingGarbage();
    assert Trim("") == "";
  }

  /** An array is read by its first element, and a number below the
      minimum falls back to the default. */
  lemma NonCanonicalEntriesFallBack(q: map<string, Value>)
    requires q == map["page" := Arr([Str("07"), Str("9")]), "limit" := Str("0")]
    ensures ParseUsersQuery(q) == ListQuery(7, DefaultLimit, "")
  {
    assert ToQueryString(Get(q, "page")) == "07";
    assert ToQueryString(Get(q, "limit")) == "0";
    assert Get(q, "search") == Undefined;
    ParseIntLeadingZero();
    ParseIntZero();
    assert Trim("") == "";
  }

  /** The empty query parses to the defaults. */
  lemma EmptyQueryParsesToDefaults()
    ensures ParseUsersQuery(map[]) == Defaults
  {
  }

  /** Building the default state gives the empty query. */
  lemma DefaultsBuildEmpty()
    ensures BuildUsersQuery(Defaults) == map[]
  {
  }

  /** A numeric field survives build-then-parse: either it is the default
      and left out, or its decimal string parses back to it. */
  lemma NumberFieldRoundTrip(n: int, default: int, q: map<string, string>, key: string)
    requires n >= 1 && default >= 1
    requires key in q <==> n != default
    requires key in q ==> q[key] == NumberToString(n)
    ensures n != default ==> ParseInt(ToQueryString(Get(Lift(q), key))) == Some(n)
    ensures n == default ==> ToQueryString(Get(Lift(q), key)) == ""
    ensures ParseIntClamp(Get(Lift(q), key), 1, default) == n
  {
    if n != default {
      ParseIntOfNumberToString(n, "");
      assert NumberToString(n) + "" == NumberToString(n);
    }
  }

  /** The search field survives build-then-parse when it is trimmed:
      either it is empty and left out, or it is stored as is. */
  lemma SearchFieldRoundTrip(search: string, q: map<string, string>)
    requires Trimmed(search)
    requires "search" in q <==> search != ""
    requires "search" in q ==> q["search"] == search
    ensures Trim(ToQueryString(Get(Lift(q), "search"))) == search
  {
    TrimFixedPoint(search);
  }

  /** Round trip: parsing the built query of a well-formed state gives
      the state back. */
  lemma RoundTrip(s: ListQuery)
    requires WellFormed(s)
    ensures ParseUsersQuery(Lift(BuildUsersQuery(s))) == s
  {
    var q := BuildUsersQuery(s);
    NumberFieldRoundTrip(s.page, DefaultPage, q, "page");
    NumberFieldRoundTrip(s.limit, DefaultLimit, q, "limit");
    SearchFieldRoundTrip(s.search, q);
    var p := ParseUsersQuery(Lift(q));
    assert p.page == s.page && p.limit == s.limit && p.search == s.search;
  }

  /** Parsing is unaffected by a build-and-parse round: the state parsed
      from any query is a fixed point of `parse . build`. */
  lemma ParseBuildParse(q: map<string, Value>)
    ensures ParseUsersQuery(Lift(BuildUsersQuery(ParseUsersQuery(q)))) == ParseUsersQuery(q)
  {
    RoundTrip(ParseUsersQuery(q));
  }
}
