/**
 * The search handler: it turns the optional query-string filters into one
 * parameterised `SELECT` over `devices`. The text it builds is read back here
 * into its clauses, so that what the query selects can be compared with the
 * predicate the filters are meant to denote.
 */
module Search {
  import opened Wrappers
  import opened Tables

  /** The six optional query-string parameters of a search request. */
  datatype Filters = Filters(owner: Option<string>, date: Option<string>, name: Option<string>,
                             model: Option<string>, project: Option<string>, location: Option<string>)

  /** The columns a search can filter on. */
  datatype Column = Owner | Date | Name | Model | Project | Location

  /** The order in which the handler tests the filters, and so the order of its clauses. */
  const ColumnOrder: seq<Column> := [Owner, Date, Name, Model, Project, Location]

  function Rank(c: Column): nat {
    match c
    case Owner => 0
    case Date => 1
    case Name => 2
    case Model => 3
    case Project => 4
    case Location => 5
  }

  function Param(f: Filters, c: Column): Option<string> {
    match c
    case Owner => f.owner
    case Date => f.date
    case Name => f.name
    case Model => f.model
    case Project => f.project
    case Location => f.location
  }

  /** The parameter's text, empty when it is absent. */
  function Value(f: Filters, c: Column): string {
    match Param(f, c)
    case Some(v) => v
    case None => ""
  }

  function FieldOf(e: Entry, c: Column): string {
    match c
    case Owner => e.owner
    case Date => e.date
    case Name => e.name
    case Model => e.model
    case Project => e.project
    case Location => e.location
  }

  /** JavaScript truthiness of a query parameter: absent and the empty string are falsy. */
  predicate Truthy(v: Option<string>) {
    v.Some? && v.value != ""
  }

  // ---------------------------------------------------------------------------
  // The builder

  const BaseQuery: string := "SELECT * FROM devices WHERE 1=1"

  /** The column's name as it appears in the statement text. */
  function ColumnName(c: Column): string {
    match c
    case Owner => "owner"
    case Date => "date"
    case Name => "name"
    case Model => "model"
    case Project => "project"
    case Location => "location"
  }

  /** The two comparisons a search clause can make. */
  datatype Comparison = Equals | Pattern

  function ComparisonText(o: Comparison): string {
    match o
    case Equals => " = "
    case Pattern => " LIKE "
  }

  /** One `AND` clause of a search statement: a column compared with its placeholder. */
  datatype Clause = Clause(column: Column, cmp: Comparison)

  /** The clause's text, ending in its one placeholder. */
  function ClauseText(k: Clause): (t: string)
    ensures 5 < |t|
  {
    " AND " + ColumnName(k.column) + ComparisonText(k.cmp) + "?"
  }

  /** The clause the handler appends for a present filter: equality on the date, `LIKE` on every other column. */
  function HandlerClause(c: Column): Clause {
    Clause(c, if c == Date then Equals else Pattern)
  }

  /** The value pushed for a present filter: the date as given, any other column as the pattern `%v%`. */
  function Bind(c: Column, v: string): string {
    if c == Date then v else "%" + v + "%"
  }

  /** A statement text with the values for its `?` placeholders. */
  datatype Query = Query(text: string, values: seq<string>)

  /** The handler's sequence of `if (filter) { query += clause; values.push(value) }` over `cs`. */
  function AddFilters(q: Query, f: Filters, cs: seq<Column>): Query
    decreases |cs|
  {
    if cs == [] then q
    else
      var c := cs[0];
      var next := if Truthy(Param(f, c)) then Query(q.text + ClauseText(HandlerClause(c)), q.values + [Bind(c, Value(f, c))]) else q;
      AddFilters(next, f, cs[1..])
  }

  /** The columns of `cs` whose filter is present, in the order of `cs`. */
  function Present(f: Filters, cs: seq<Column>): seq<Column>
  {
    if cs == [] then []
    else (if Truthy(Param(f, cs[0])) then [cs[0]] else []) + Present(f, cs[1..])
  }

  /** The handler's clauses for the columns `cs`, one per column. */
  function ClausesOf(cs: seq<Column>): (ks: seq<Clause>)
    ensures |ks| == |cs|
    ensures forall i :: 0 <= i < |cs| ==> ks[i] == HandlerClause(cs[i])
  {
    if cs == [] then [] else [HandlerClause(cs[0])] + ClausesOf(cs[1..])
  }

  /** The texts of the clauses `ks`, concatenated. */
  function Render(ks: seq<Clause>): string
  {
    if ks == [] then "" else ClauseText(ks[0]) + Render(ks[1..])
  }

  /** The values bound for `cs`, one per column. */
  function Binds(f: Filters, cs: seq<Column>): (vs: seq<string>)
    ensures |vs| == |cs|
    ensures forall i :: 0 <= i < |cs| ==> vs[i] == Bind(cs[i], Value(f, cs[i]))
  {
    if cs == [] then [] else [Bind(cs[0], Value(f, cs[0]))] + Binds(f, cs[1..])
  }

  /** The number of `?` placeholders in a statement text. */
  function Placeholders(s: string): nat
  {
    if s == "" then 0 else (if s[0] == '?' then 1 else 0) + Placeholders(s[1..])
  }

  /**
   * The search statement for the given filters. Its placeholders and values
   * pair up one to one; its clauses are exactly the present filters, in the
   * handler's fixed column order, each comparing with `=` for the date and
   * with `LIKE` otherwise; each value is the date as given or `%v%`.
   */
  function BuildQuery(f: Filters): (q: Query)
    ensures Placeholders(q.text) == |q.values|
    ensures ParseQuery(q.text) == Some(ClausesOf(Present(f, ColumnOrder)))
    ensures |q.values| == |Present(f, ColumnOrder)|
    ensures forall i :: 0 <= i < |q.values| ==>
              var c := Present(f, ColumnOrder)[i]; q.values[i] == Bind(c, Value(f, c))
  {
    BuiltQueryShape(f);
    AddFilters(Query(BaseQuery, []), f, ColumnOrder)
  }

  lemma BuiltQueryShape(f: Filters)
    ensures var q := AddFilters(Query(BaseQuery, []), f, ColumnOrder);
      && Placeholders(q.text) == |q.values|
      && ParseQuery(q.text) == Some(ClausesOf(Present(f, ColumnOrder)))
      && q.values == Binds(f, Present(f, ColumnOrder))
  {
    var cs := Present(f, ColumnOrder);
    AddFiltersClosedForm(Query(BaseQuery, []), f, ColumnOrder);
    assert [] + Binds(f, cs) == Binds(f, cs);
    StatementPlaceholders(ClausesOf(cs));
    StatementParses(ClausesOf(cs));
  }

  /** A search statement has one placeholder per clause. */
  lemma StatementPlaceholders(ks: seq<Clause>)
    ensures Placeholders(BaseQuery + Render(ks)) == |ks|
  {
    PlaceholdersAppend(BaseQuery, Render(ks));
    BaseQueryHasNoPlaceholder();
    PlaceholdersRender(ks);
  }

  lemma BaseQueryHasNoPlaceholder()
    ensures Placeholders(BaseQuery) == 0
  {
    assert '?' !in BaseQuery;
    PlaceholdersNone(BaseQuery);
  }

  /** A search statement reads back into the clauses it was rendered from. */
  lemma StatementParses(ks: seq<Clause>)
    ensures ParseQuery(BaseQuery + Render(ks)) == Some(ks)
  {
    ParseRender(ks);
    assert (BaseQuery + Render(ks))[|BaseQuery|..] == Render(ks);
  }

  lemma AddFiltersClosedForm(q: Query, f: Filters, cs: seq<Column>)
    ensures AddFilters(q, f, cs) == Query(q.text + Render(ClausesOf(Present(f, cs))), q.values + Binds(f, Present(f, cs)))
  {
    AddFiltersText(q, f, cs);
    AddFiltersValues(q, f, cs);
  }

  lemma {:induction false} AddFiltersText(q: Query, f: Filters, cs: seq<Column>)
    ensures AddFilters(q, f, cs).text == q.text + Render(ClausesOf(Present(f, cs)))
    decreases |cs|
  {
    if cs == [] {
      assert q.text + "" == q.text;
    } else if Truthy(Param(f, cs[0])) {
      var c, rest := cs[0], Present(f, cs[1..]);
      var next := Query(q.text + ClauseText(HandlerClause(c)), q.values + [Bind(c, Value(f, c))]);
      calc {
        AddFilters(q, f, cs).text;
        AddFilters(next, f, cs[1..]).text;
        { AddFiltersText(next, f, cs[1..]); }
        q.text + ClauseText(HandlerClause(c)) + Render(ClausesOf(rest));
        q.text + (ClauseText(HandlerClause(c)) + Render(ClausesOf(rest)));
        { RenderCons(c, rest); }
        q.text + Render(ClausesOf([c] + rest));
        { assert Present(f, cs) == [c] + rest; }
        q.text + Render(ClausesOf(Present(f, cs)));
      }
    } else {
      calc {
        AddFilters(q, f, cs).text;
        AddFilters(q, f, cs[1..]).text;
        { AddFiltersText(q, f, cs[1..]); }
        q.text + Render(ClausesOf(Present(f, cs[1..])));
        { assert Present(f, cs) == [] + Present(f, cs[1..]) == Present(f, cs[1..]); }
        q.text + Render(ClausesOf(Present(f, cs)));
      }
    }
  }

  lemma {:induction false} AddFiltersValues(q: Query, f: Filters, cs: seq<Column>)
    ensures AddFilters(q, f, cs).values == q.values + Binds(f, Present(f, cs))
    decreases |cs|
  {
    if cs == [] {
      assert q.values + [] == q.values;
    } else if Truthy(Param(f, cs[0])) {
      var c, rest := cs[0], Present(f, cs[1..]);
      var v := Bind(c, Value(f, c));
      var next := Query(q.text + ClauseText(HandlerClause(c)), q.values + [v]);
      calc {
        AddFilters(q, f, cs).values;
        AddFilters(next, f, cs[1..]).values;
        { AddFiltersValues(next, f, cs[1..]); }
        q.values + [v] + Binds(f, rest);
        q.values + ([v] + Binds(f, rest));
        { BindsCons(f, c, rest); }
        q.values + Binds(f, [c] + rest);
        { assert Present(f, cs) == [c] + rest; }
        q.values + Binds(f, Present(f, cs));
      }
    } else {
      calc {
        AddFilters(q, f, cs).values;
        AddFilters(q, f, cs[1..]).values;
        { AddFiltersValues(q, f, cs[1..]); }
        q.values + Binds(f, Present(f, cs[1..]));
        { assert Present(f, cs) == [] + Present(f, cs[1..]) == Present(f, cs[1..]); }
        q.values + Binds(f, Present(f, cs));
      }
    }
  }

  lemma RenderCons(c: Column, cs: seq<Column>)
    ensures Render(ClausesOf([c] + cs)) == ClauseText(HandlerClause(c)) + Render(ClausesOf(cs))
  {
    assert ([c] + cs)[1..] == cs;
    assert ClausesOf([c] + cs) == [HandlerClause(c)] + ClausesOf(cs);
    assert ([HandlerClause(c)] + ClausesOf(cs))[1..] == ClausesOf(cs);
  }

  lemma BindsCons(f: Filters, c: Column, cs: seq<Column>)
    ensures Binds(f, [c] + cs) == [Bind(c, Value(f, c))] + Binds(f, cs)
  {
  }

  lemma {:induction false} PlaceholdersAppend(a: string, b: string)
    ensures Placeholders(a + b) == Placeholders(a) + Placeholders(b)
  {
    if a == "" {
      assert a + b == b;
    } else {
      assert (a + b)[0] == a[0];
      assert (a + b)[1..] == a[1..] + b;
      PlaceholdersAppend(a[1..], b);
    }
  }

  lemma {:induction false} PlaceholdersNone(s: string)
    requires '?' !in s
    ensures Placeholders(s) == 0
  {
    if s != "" {
      assert s[0] != '?';
      assert forall x :: x in s[1..] ==> x in s;
      PlaceholdersNone(s[1..]);
    }
  }

  lemma PlaceholdersClause(k: Clause)
    ensures Placeholders(ClauseText(k)) == 1
  {
    var head := " AND " + ColumnName(k.column) + ComparisonText(k.cmp);
    assert '?' !in head;
    PlaceholdersNone(head);
    PlaceholdersAppend(head, "?");
  }

  /** Every clause carries exactly one placeholder. */
  lemma {:induction false} PlaceholdersRender(ks: seq<Clause>)
    ensures Placeholders(Render(ks)) == |ks|
  {
    if ks != [] {
      PlaceholdersClause(ks[0]);
      PlaceholdersAppend(ClauseText(ks[0]), Render(ks[1..]));
      PlaceholdersRender(ks[1..]);
    }
  }

  // ---------------------------------------------------------------------------
  // Reading a statement text back into its clauses

  /** Every clause a search statement can hold, column by column. */
  const AllClauses: seq<Clause> := [
    Clause(Owner, Equals), Clause(Owner, Pattern), Clause(Date, Equals), Clause(Date, Pattern),
    Clause(Name, Equals), Clause(Name, Pattern), Clause(Model, Equals), Clause(Model, Pattern),
    Clause(Project, Equals), Clause(Project, Pattern), Clause(Location, Equals), Clause(Location, Pattern)]

  /** The first of the clauses `ks` whose text begins `t`. */
  function FirstClause(t: string, ks: seq<Clause>): (r: Option<Clause>)
    ensures r.Some? ==> ClauseText(r.value) <= t
  {
    if ks == [] then None
    else if ClauseText(ks[0]) <= t then Some(ks[0])
    else FirstClause(t, ks[1..])
  }

  /** The clause that begins `t`, if any. */
  function LeadingClause(t: string): (r: Option<Clause>)
    ensures r.Some? ==> ClauseText(r.value) <= t
  {
    FirstClause(t, AllClauses)
  }

  /** The clauses a text after the base query consists of, or None when it is not a run of clauses. */
  function ParseClauses(t: string): Option<seq<Clause>>
    decreases |t|
  {
    if t == "" then Some([])
    else match LeadingClause(t)
      case None => None
      case Some(k) =>
        match ParseClauses(t[|ClauseText(k)|..])
        case None => None
        case Some(ks) => Some([k] + ks)
  }

  /** The clauses of a search statement, or None when it is not one. */
  function ParseQuery(text: string): Option<seq<Clause>>
  {
    if BaseQuery <= text then ParseClauses(text[|BaseQuery|..]) else None
  }

  lemma AllClausesComplete(k: Clause)
    ensures k in AllClauses
  {
    assert AllClauses[2 * Rank(k.column) + (if k.cmp == Equals then 0 else 1)] == k;
  }

  /**
   * No clause's text begins with another's: the sixth character names the
   * column, and after the column name the comparison's first letter differs.
   */
  lemma ClausesDiffer(k: Clause, k': Clause, rest: string)
    requires k != k'
    ensures !(ClauseText(k') <= ClauseText(k) + rest)
  {
    var t := ClauseText(k) + rest;
    if k.column != k'.column {
      assert t[5] == ClauseText(k)[5] == ColumnName(k.column)[0];
      assert ClauseText(k')[5] == ColumnName(k'.column)[0];
    } else {
      var n := |ColumnName(k.column)|;
      assert t[6 + n] == ClauseText(k)[6 + n] == ComparisonText(k.cmp)[1];
      assert ClauseText(k')[6 + n] == ComparisonText(k'.cmp)[1];
    }
  }

  lemma {:induction false} FirstClauseFinds(t: string, ks: seq<Clause>, k: Clause)
    requires k in ks && ClauseText(k) <= t
    requires forall k' :: k' in ks && k' != k ==> !(ClauseText(k') <= t)
    ensures FirstClause(t, ks) == Some(k)
  {
    if ks[0] != k {
      assert k in ks[1..];
      FirstClauseFinds(t, ks[1..], k);
    }
  }

  lemma LeadingClauseOf(k: Clause, rest: string)
    ensures LeadingClause(ClauseText(k) + rest) == Some(k)
  {
    var t := ClauseText(k) + rest;
    AllClausesComplete(k);
    forall k' | k' in AllClauses && k' != k
      ensures !(ClauseText(k') <= t)
    {
      ClausesDiffer(k, k', rest);
    }
    FirstClauseFinds(t, AllClauses, k);
  }

  /** Reading rendered clauses back yields the same clauses. */
  lemma {:induction false} ParseRender(ks: seq<Clause>)
    ensures ParseClauses(Render(ks)) == Some(ks)
  {
    if ks != [] {
      var k := ks[0];
      var t := Render(ks);
      LeadingClauseOf(k, Render(ks[1..]));
      assert t[|ClauseText(k)|..] == Render(ks[1..]);
      ParseRender(ks[1..]);
      assert [k] + ks[1..] == ks;
    }
  }

  /** A text that reads as clauses is the rendering of what it reads as. */
  lemma {:induction false} RenderParse(t: string)
    ensures ParseClauses(t).Some? ==> Render(ParseClauses(t).value) == t
    decreases |t|
  {
    if t != "" && LeadingClause(t).Some? {
      var k := LeadingClause(t).value;
      var rest := t[|ClauseText(k)|..];
      RenderParse(rest);
      if ParseClauses(rest).Some? {
        var ks := ParseClauses(rest).value;
        assert ParseClauses(t).value == [k] + ks;
        assert ([k] + ks)[1..] == ks;
        assert t == ClauseText(k) + rest;
      }
    }
  }

  /** A statement that reads as a search statement has one placeholder per clause. */
  lemma ParsedPlaceholders(text: string)
    ensures ParseQuery(text).Some? ==> Placeholders(text) == |ParseQuery(text).value|
  {
    if ParseQuery(text).Some? {
      var ks := ParseQuery(text).value;
      RenderParse(text[|BaseQuery|..]);
      assert text == BaseQuery + Render(ks);
      StatementPlaceholders(ks);
    }
  }

  // ---------------------------------------------------------------------------
  // What a statement selects

  /**
   * SQL `LIKE` with `%` as its only wildcard: `%` matches any run of
   * characters, every other pattern character matches itself. A pattern
   * without `%` matches exactly the string equal to it.
   */
  function Like(s: string, p: string): (b: bool)
    ensures '%' !in p ==> (b <==> s == p)
    decreases |s| + |p|
  {
    if p == "" then s == ""
    else if p[0] == '%' then Like(s, p[1..]) || (s != "" && Like(s[1..], p))
    else
      assert '%' !in p ==> '%' !in p[1..] by {
        assert forall x :: x in p[1..] ==> x in p;
      }
      assert s != "" ==> (s == p <==> s[0] == p[0] && s[1..] == p[1..]) by {
        if s != "" && s[0] == p[0] && s[1..] == p[1..] {
          assert s == [s[0]] + s[1..] && p == [p[0]] + p[1..];
        }
      }
      s != "" && s[0] == p[0] && Like(s[1..], p[1..])
  }

  /** `v` occurs in `s` as a contiguous run. */
  predicate Contains(s: string, v: string) {
    exists k :: 0 <= k <= |s| && v <= s[k..]
  }

  /** One clause of a search statement, with its bound value, holds of a device: the comparison the clause names. */
  predicate Holds(k: Clause, v: string, e: Entry) {
    match k.cmp
    case Equals => FieldOf(e, k.column) == v
    case Pattern => Like(FieldOf(e, k.column), v)
  }

  /**
   * The statement, evaluated against one device row: every clause read from
   * its text holds with the value bound to it by position. Values past the
   * last placeholder are dropped; a statement with fewer values than
   * placeholders is one the store rejects, and it holds of no row.
   */
  function Satisfies(q: Query, e: Entry): (b: bool)
    ensures b ==> ParseQuery(q.text).Some? && Placeholders(q.text) <= |q.values|
  {
    ParsedPlaceholders(q.text);
    match ParseQuery(q.text)
    case None => false
    case Some(ks) => |ks| <= |q.values| && forall i :: 0 <= i < |ks| ==> Holds(ks[i], q.values[i], e)
  }

  /** Values bound past the last placeholder do not change what the statement selects. */
  lemma SurplusValuesDropped(text: string, vs: seq<string>, extra: seq<string>, e: Entry)
    requires Placeholders(text) <= |vs|
    ensures Satisfies(Query(text, vs + extra), e) == Satisfies(Query(text, vs), e)
  {
    ParsedPlaceholders(text);
    if ParseQuery(text).Some? {
      var ks := ParseQuery(text).value;
      assert forall i :: 0 <= i < |ks| ==> (vs + extra)[i] == vs[i];
    }
  }

  /** The rows of `ds` the statement selects, in table order. */
  function Select(ds: seq<Device>, q: Query): (r: seq<Device>)
    ensures forall d :: d in r <==> d in ds && Satisfies(q, d.entry)
  {
    if ds == [] then []
    else (if Satisfies(q, ds[0].entry) then [ds[0]] else []) + Select(ds[1..], q)
  }

  /** What the filters are meant to denote: substring tests on five columns and equality on the date. */
  predicate Matches(f: Filters, e: Entry) {
    && (Truthy(f.owner) ==> Contains(e.owner, f.owner.value))
    && (Truthy(f.date) ==> e.date == f.date.value)
    && (Truthy(f.name) ==> Contains(e.name, f.name.value))
    && (Truthy(f.model) ==> Contains(e.model, f.model.value))
    && (Truthy(f.project) ==> Contains(e.project, f.project.value))
    && (Truthy(f.location) ==> Contains(e.location, f.location.value))
  }

  /** No value of a `LIKE` filter carries the `%` wildcard, which the handler does not escape. */
  predicate NoWildcards(f: Filters) {
    forall c :: c != Date ==> '%' !in Value(f, c)
  }

  predicate ColumnMatches(f: Filters, c: Column, e: Entry) {
    Truthy(Param(f, c)) ==>
      if c == Date then e.date == Value(f, c) else Contains(FieldOf(e, c), Value(f, c))
  }

  lemma MatchesPerColumn(f: Filters, e: Entry)
    ensures Matches(f, e) <==> forall c :: ColumnMatches(f, c, e)
  {
    if Matches(f, e) {
      forall c
        ensures ColumnMatches(f, c, e)
      {
      }
    }
    if forall c :: ColumnMatches(f, c, e) {
      assert ColumnMatches(f, Owner, e) && ColumnMatches(f, Date, e) && ColumnMatches(f, Name, e);
      assert ColumnMatches(f, Model, e) && ColumnMatches(f, Project, e) && ColumnMatches(f, Location, e);
    }
  }

  lemma {:induction false} LikeAnything(s: string)
    ensures Like(s, "%")
  {
    assert "%"[1..] == "";
    if s != "" {
      LikeAnything(s[1..]);
    }
  }

  /** Without wildcards in `v`, the pattern `v%` matches exactly the strings `v` begins. */
  lemma {:induction false} LikePrefix(s: string, v: string)
    requires '%' !in v
    ensures Like(s, v + "%") <==> v <= s
  {
    if v == "" {
      assert v + "%" == "%";
      LikeAnything(s);
    } else {
      var p := v + "%";
      assert p[0] == v[0];
      assert p[1..] == v[1..] + "%";
      assert '%' !in v[1..] by {
        forall i | 0 <= i < |v[1..]|
          ensures v[1..][i] != '%'
        {
          assert v[1..][i] == v[i + 1];
        }
      }
      if s != "" {
        LikePrefix(s[1..], v[1..]);
        assert v <= s <==> s[0] == v[0] && v[1..] <= s[1..];
      }
    }
  }

  /** Without wildcards in `v`, the pattern `%v%` matches exactly the strings containing `v`. */
  lemma {:induction false} LikeContains(s: string, v: string)
    requires '%' !in v
    ensures Like(s, "%" + v + "%") <==> Contains(s, v)
    decreases |s|
  {
    var p := "%" + v + "%";
    assert p[0] == '%';
    assert p[1..] == v + "%";
    LikePrefix(s, v);
    if s == "" {
      if Contains(s, v) {
        var k :| 0 <= k <= |s| && v <= s[k..];
        assert s[k..] == s;
      }
    } else {
      LikeContains(s[1..], v);
      if Contains(s, v) {
        var k :| 0 <= k <= |s| && v <= s[k..];
        if k > 0 {
          assert s[1..][k - 1..] == s[k..];
          assert Contains(s[1..], v);
        } else {
          assert s[0..] == s;
        }
      }
      if Contains(s[1..], v) {
        var k :| 0 <= k <= |s[1..]| && v <= s[1..][k..];
        assert s[1..][k..] == s[k + 1..];
        assert Contains(s, v);
      }
      if v <= s {
        assert s[0..] == s;
      }
    }
  }

  /** A clause with its bound value holds exactly when the column passes its filter. */
  lemma HoldsBound(c: Column, v: string, e: Entry)
    requires c != Date ==> '%' !in v
    ensures Holds(HandlerClause(c), Bind(c, v), e) <==> if c == Date then e.date == v else Contains(FieldOf(e, c), v)
  {
    if c != Date {
      LikeContains(FieldOf(e, c), v);
    }
  }

  /** A column is among the present ones exactly when its filter is truthy. */
  lemma {:induction false} PresentMembers(f: Filters, cs: seq<Column>)
    ensures forall c :: c in Present(f, cs) <==> c in cs && Truthy(Param(f, c))
  {
    if cs != [] {
      PresentMembers(f, cs[1..]);
      assert forall c :: c in cs <==> c == cs[0] || c in cs[1..];
    }
  }

  /** Columns listed in strictly increasing handler order. */
  predicate Ordered(cs: seq<Column>) {
    forall i, j :: 0 <= i < j < |cs| ==> Rank(cs[i]) < Rank(cs[j])
  }

  lemma OrderedTail(cs: seq<Column>)
    requires Ordered(cs) && cs != []
    ensures Ordered(cs[1..])
  {
    var tail := cs[1..];
    forall i, j | 0 <= i < j < |tail|
      ensures Rank(tail[i]) < Rank(tail[j])
    {
      assert tail[i] == cs[i + 1] && tail[j] == cs[j + 1];
    }
  }

  lemma OrderedCons(c: Column, rest: seq<Column>)
    requires Ordered(rest) && forall j :: 0 <= j < |rest| ==> Rank(c) < Rank(rest[j])
    ensures Ordered([c] + rest)
  {
    var r := [c] + rest;
    forall i, j | 0 <= i < j < |r|
      ensures Rank(r[i]) < Rank(r[j])
    {
      if i == 0 {
        assert r[j] == rest[j - 1];
      } else {
        assert r[i] == rest[i - 1] && r[j] == rest[j - 1];
      }
    }
  }

  lemma {:induction false} PresentOrdered(f: Filters, cs: seq<Column>)
    requires Ordered(cs)
    ensures Ordered(Present(f, cs))
  {
    if cs != [] {
      var tail := cs[1..];
      OrderedTail(cs);
      PresentOrdered(f, tail);
      PresentMembers(f, tail);
      var rest := Present(f, tail);
      if Truthy(Param(f, cs[0])) {
        forall j | 0 <= j < |rest|
          ensures Rank(cs[0]) < Rank(rest[j])
        {
          assert rest[j] in tail;
          var k :| 0 <= k < |tail| && tail[k] == rest[j];
          assert tail[k] == cs[k + 1];
        }
        OrderedCons(cs[0], rest);
      } else {
        assert Present(f, cs) == rest;
      }
    }
  }

  lemma InColumnOrder(c: Column)
    ensures c in ColumnOrder
  {
    assert ColumnOrder[Rank(c)] == c;
  }

  /** The handler's clause for `c` is among those for `cs` exactly when `c` is among `cs`. */
  lemma ClausesOfMembers(cs: seq<Column>, c: Column)
    ensures HandlerClause(c) in ClausesOf(cs) <==> c in cs
  {
    var ks := ClausesOf(cs);
    if c in cs {
      var i :| 0 <= i < |cs| && cs[i] == c;
      assert ks[i] == HandlerClause(c);
    }
    if HandlerClause(c) in ks {
      var i :| 0 <= i < |ks| && ks[i] == HandlerClause(c);
      assert cs[i] == c;
    }
  }

  /**
   * The statement has one clause per truthy filter and none for a falsy one;
   * the clauses stand in the fixed order owner, date, name, model, project,
   * location; the date clause compares with `=` and every other with `LIKE`.
   */
  lemma ClauseOrder(f: Filters)
    ensures var ks := ParseQuery(BuildQuery(f).text).value;
      && (forall i, j :: 0 <= i < j < |ks| ==> Rank(ks[i].column) < Rank(ks[j].column))
      && (forall c :: HandlerClause(c) in ks <==> Truthy(Param(f, c)))
      && (forall i :: 0 <= i < |ks| ==> ks[i].cmp == if ks[i].column == Date then Equals else Pattern)
  {
    PresentClauses(f);
  }

  /** The handler's clauses for the present filters, whatever text they are written into. */
  lemma PresentClauses(f: Filters)
    ensures var ks := ClausesOf(Present(f, ColumnOrder));
      && (forall i, j :: 0 <= i < j < |ks| ==> Rank(ks[i].column) < Rank(ks[j].column))
      && (forall c :: HandlerClause(c) in ks <==> Truthy(Param(f, c)))
      && (forall i :: 0 <= i < |ks| ==> ks[i].cmp == if ks[i].column == Date then Equals else Pattern)
  {
    var cs := Present(f, ColumnOrder);
    assert Ordered(ColumnOrder);
    PresentOrdered(f, ColumnOrder);
    ClausesOfOrdered(cs);
    forall c
      ensures HandlerClause(c) in ClausesOf(cs) <==> Truthy(Param(f, c))
    {
      PresentMembers(f, ColumnOrder);
      InColumnOrder(c);
      ClausesOfMembers(cs, c);
    }
  }

  lemma ClausesOfOrdered(cs: seq<Column>)
    requires Ordered(cs)
    ensures var ks := ClausesOf(cs); forall i, j :: 0 <= i < j < |ks| ==> Rank(ks[i].column) < Rank(ks[j].column)
  {
  }

  /** With every filter falsy the statement is the bare base query with no values. */
  lemma NoFiltersGiveBaseQuery(f: Filters)
    requires forall c :: !Truthy(Param(f, c))
    ensures BuildQuery(f) == Query(BaseQuery, [])
    ensures forall e :: Satisfies(BuildQuery(f), e)
  {
  }

  /**
   * The statement built from the filters selects a device exactly when the
   * device meets every present filter: a substring test on owner, name,
   * model, project and location, an equality test on the date.
   */
  lemma QueryMeansMatches(f: Filters, e: Entry)
    requires NoWildcards(f)
    ensures Satisfies(BuildQuery(f), e) <==> Matches(f, e)
  {
    var q := BuildQuery(f);
    var cs := Present(f, ColumnOrder);
    var ks := ClausesOf(cs);
    SatisfiesBuilt(f, e);
    PresentMembers(f, ColumnOrder);
    MatchesPerColumn(f, e);
    forall i | 0 <= i < |cs|
      ensures Holds(ks[i], q.values[i], e) <==> ColumnMatches(f, cs[i], e)
    {
      assert cs[i] in cs;
      HoldsBound(cs[i], Value(f, cs[i]), e);
    }
    if Satisfies(q, e) {
      forall c
        ensures ColumnMatches(f, c, e)
      {
        if Truthy(Param(f, c)) {
          InColumnOrder(c);
          var i :| 0 <= i < |cs| && cs[i] == c;
          assert Holds(ks[i], q.values[i], e);
        }
      }
    }
    if Matches(f, e) {
      forall i | 0 <= i < |cs|
        ensures Holds(ks[i], q.values[i], e)
      {
        assert ColumnMatches(f, cs[i], e);
      }
    }
  }

  /** The built statement holds of a row exactly when each handler clause holds with its value. */
  lemma SatisfiesBuilt(f: Filters, e: Entry)
    ensures var q := BuildQuery(f); var ks := ClausesOf(Present(f, ColumnOrder));
      Satisfies(q, e) <==> forall i :: 0 <= i < |ks| ==> Holds(ks[i], q.values[i], e)
  {
  }

  /** The search statement selects from a table exactly the rows that meet the filters. */
  lemma SelectMeansMatches(ds: seq<Device>, f: Filters)
    ensures NoWildcards(f) ==>
      forall d :: d in Select(ds, BuildQuery(f)) <==> d in ds && Matches(f, d.entry)
  {
    if NoWildcards(f) {
      forall d | d in ds
        ensures Satisfies(BuildQuery(f), d.entry) <==> Matches(f, d.entry)
      {
        QueryMeansMatches(f, d.entry);
      }
    }
  }

  /**
   * The handler does not escape `%` in a filter value, so such a value acts
   * as a wildcard: the owner filter "a%c" selects an owner "abc", which does
   * not contain "a%c".
   */
  lemma WildcardInFilter()
    ensures Like("abc", Bind(Owner, "a%c"))
    ensures !Contains("abc", "a%c")
  {
  }

  /** A statement every row satisfies selects the whole table. */
  lemma {:induction false} SelectAll(ds: seq<Device>, q: Query)
    requires forall e :: Satisfies(q, e)
    ensures Select(ds, q) == ds
  {
    if ds != [] {
      SelectAll(ds[1..], q);
      assert [ds[0]] + ds[1..] == ds;
    }
  }
}
