/**
 * The filter-query builder shared by the overview page and the CSV and PDF exports: four
 * optional filter strings from the request become a SQL query, grown clause by clause,
 * and the list of values for its `?` placeholders.
 */
module ReportFilter {
  import opened Wrappers
  import opened Text
  import opened DateFormat

  /**
   * The four request arguments; `request.args.get(name, '')` gives the empty string
   * for an argument that is absent.
   */
  datatype Filters = Filters(kundeId: string, vonDatum: string, bisDatum: string, bezahlt: string)

  /** The overview page selects whole reports; both exports select the same seven columns. */
  datatype View = Overview | Export

  /** The fixed start of the query, up to `WHERE 1=1`, written in short pieces. */
  function Base(v: View): string {
    match v
    case Overview => "SELECT r.*, k.name as kunde_name" + FromReports
    case Export =>
      "SELECT r.datum, k.name as kunde, " + "r.thema, r.dauer_minuten, "
      + "r.kosten, r.bezahlt, r.zahlungsart" + FromReports
  }

  const FromReports: string := " FROM rapporte r" + " LEFT JOIN kunden k" + " ON r.kunde_id = k.id" + " WHERE 1=1"

  /** The end of every such query: newest reports first. */
  const OrderBy: string := " ORDER BY r.datum DESC"

  /** One `AND` clause of the query. */
  datatype Condition = CustomerIs(id: string) | DateFrom(from: string) | DateTo(to: string) | PaidOnly | UnpaidOnly

  function Clause(c: Condition): string {
    match c
    case CustomerIs(_) => " AND r.kunde_id = ?"
    case DateFrom(_) => " AND r.datum >= ?"
    case DateTo(_) => " AND r.datum <= ?"
    case PaidOnly => " AND r.bezahlt = 1"
    case UnpaidOnly => " AND r.bezahlt = 0"
  }

  /** The value a clause binds to its placeholder, if it has one. */
  function Param(c: Condition): seq<string> {
    match c
    case CustomerIs(id) => [id]
    case DateFrom(d) => [d]
    case DateTo(d) => [d]
    case PaidOnly => []
    case UnpaidOnly => []
  }

  /** The position of a kind of clause in the fixed order client, from, to, payment state. */
  function Rank(c: Condition): nat {
    match c
    case CustomerIs(_) => 0
    case DateFrom(_) => 1
    case DateTo(_) => 2
    case PaidOnly => 3
    case UnpaidOnly => 3
  }

  /** One condition when its filter is set (a non-empty text is true in Python), none otherwise. */
  function Optional(isSet: bool, c: Condition): seq<Condition> {
    if isSet then [c] else []
  }

  /** The payment filter: `1` asks for paid reports, `0` for unpaid ones, anything else for all. */
  function PaymentCondition(bezahlt: string): seq<Condition> {
    if bezahlt == "1" then [PaidOnly] else if bezahlt == "0" then [UnpaidOnly] else []
  }

  /** The clauses a set of filters asks for. */
  function Conditions(f: Filters): seq<Condition> {
    Optional(f.kundeId != "", CustomerIs(f.kundeId))
    + Optional(f.vonDatum != "", DateFrom(f.vonDatum))
    + Optional(f.bisDatum != "", DateTo(f.bisDatum))
    + PaymentCondition(f.bezahlt)
  }

  function Clauses(cs: seq<Condition>): string {
    if cs == [] then [] else Clauses(cs[..|cs| - 1]) + Clause(cs[|cs| - 1])
  }

  function Params(cs: seq<Condition>): seq<string> {
    if cs == [] then [] else Params(cs[..|cs| - 1]) + Param(cs[|cs| - 1])
  }

  lemma ClausesSnoc(cs: seq<Condition>, c: Condition)
    ensures Clauses(cs + [c]) == Clauses(cs) + Clause(c)
    ensures Params(cs + [c]) == Params(cs) + Param(c)
  {
    assert (cs + [c])[..|cs|] == cs;
  }

  /**
   * Lines 65-83 (and 268-285, 323-340): the base query, one clause per filter that is
   * set, in the fixed order, and the ordering by date.
   */
  method BuildQuery(v: View, f: Filters) returns (query: string, params: seq<string>)
    ensures query == Base(v) + Clauses(Conditions(f)) + OrderBy
    ensures params == Params(Conditions(f))
    ensures query[..|Base(v)|] == Base(v)
    ensures query[|query| - |OrderBy|..] == OrderBy
    ensures Count(query, '?') == |params|
  {
    query := Base(v);
    query, params := ApplyFilters(query, f);
    query := query + OrderBy;
    Placeholders(v, Conditions(f));
    Framed(Base(v), Clauses(Conditions(f)), OrderBy);
  }

  /**
   * The filter block the three handlers share (lines 68-81, 270-283, 325-338): each set
   * filter appends its clause to the query and its value to the parameters.
   */
  method ApplyFilters(base: string, f: Filters) returns (query: string, params: seq<string>)
    ensures query == base + Clauses(Conditions(f))
    ensures params == Params(Conditions(f))
  {
    query, params := base, [];
    ghost var cs: seq<Condition> := [];
    query, params := AddIfSet(query, params, cs, base, f.kundeId != "", CustomerIs(f.kundeId));
    cs := cs + Optional(f.kundeId != "", CustomerIs(f.kundeId));
    query, params := AddIfSet(query, params, cs, base, f.vonDatum != "", DateFrom(f.vonDatum));
    cs := cs + Optional(f.vonDatum != "", DateFrom(f.vonDatum));
    query, params := AddIfSet(query, params, cs, base, f.bisDatum != "", DateTo(f.bisDatum));
    cs := cs + Optional(f.bisDatum != "", DateTo(f.bisDatum));
    query := AddPayment(query, params, cs, base, f.bezahlt);
    cs := cs + PaymentCondition(f.bezahlt);
  }

  /**
   * `if value: query += clause; params.append(value)`: a filter that is set appends its
   * clause to the query and its value to the parameters; one that is not changes nothing.
   */
  method AddIfSet(query: string, params: seq<string>, ghost cs: seq<Condition>, ghost base: string,
                  isSet: bool, c: Condition)
    returns (query': string, params': seq<string>)
    requires query == base + Clauses(cs) && params == Params(cs)
    ensures query' == base + Clauses(cs + Optional(isSet, c)) && params' == Params(cs + Optional(isSet, c))
  {
    if isSet {
      query' := query + Clause(c);
      params' := params + Param(c);
      AppendStep(base, cs, c);
    } else {
      query', params' := query, params;
      assert cs + Optional(isSet, c) == cs;
    }
  }

  /**
   * The payment filter: `1` appends the paid clause, `0` the unpaid clause, neither with a
   * parameter; any other value changes nothing.
   */
  method AddPayment(query: string, params: seq<string>, ghost cs: seq<Condition>, ghost base: string,
                    bezahlt: string)
    returns (query': string)
    requires query == base + Clauses(cs) && params == Params(cs)
    ensures query' == base + Clauses(cs + PaymentCondition(bezahlt))
    ensures params == Params(cs + PaymentCondition(bezahlt))
  {
    if bezahlt == "1" {
      query' := query + Clause(PaidOnly);
      assert Param(PaidOnly) == [];
      AppendStep(base, cs, PaidOnly);
    } else if bezahlt == "0" {
      query' := query + Clause(UnpaidOnly);
      assert Param(UnpaidOnly) == [];
      AppendStep(base, cs, UnpaidOnly);
    } else {
      query' := query;
      assert cs + PaymentCondition(bezahlt) == cs;
    }
  }

  lemma AppendStep(base: string, cs: seq<Condition>, c: Condition)
    ensures base + Clauses(cs) + Clause(c) == base + Clauses(cs + [c])
  {
    ClausesSnoc(cs, c);
    SeqAssoc(base, Clauses(cs), Clause(c));
  }

  lemma SeqAssoc<T>(x: seq<T>, y: seq<T>, z: seq<T>)
    ensures x + y + z == x + (y + z)
  {
  }

  lemma LastSplit<T>(s: seq<T>)
    requires s != []
    ensures s == s[..|s| - 1] + [s[|s| - 1]]
  {
  }

  /** The text of `base + middle + tail` begins with `base` and ends with `tail`. */
  lemma Framed(base: string, middle: string, tail: string)
    ensures (base + middle + tail)[..|base|] == base
    ensures (base + middle + tail)[|base + middle + tail| - |tail|..] == tail
  {
  }

  /** No placeholder outside the clauses; one in each clause that binds a value. */
  lemma Placeholders(v: View, cs: seq<Condition>)
    ensures Count(Base(v) + Clauses(cs) + OrderBy, '?') == |Params(cs)|
  {
    BaseHasNoPlaceholder(v);
    OrderByHasNoPlaceholder();
    PlaceholdersBetween(Base(v), cs, OrderBy);
  }

  lemma OrderByHasNoPlaceholder()
    ensures '?' !in OrderBy
  {
    NotInEither('?', " ORDER BY r.datum", " DESC");
  }

  lemma PlaceholdersBetween(base: string, cs: seq<Condition>, tail: string)
    requires '?' !in base && '?' !in tail
    ensures Count(base + Clauses(cs) + tail, '?') == |Params(cs)|
  {
    CountZero(base, '?');
    CountZero(tail, '?');
    ClausePlaceholders(cs);
    CountAppend(base + Clauses(cs), tail, '?');
    CountAppend(base, Clauses(cs), '?');
  }

  lemma BaseHasNoPlaceholder(v: View)
    ensures '?' !in Base(v)
  {
    FromHasNoPlaceholder();
    match v
    case Overview =>
      NotInEither('?', "SELECT r.*, k.name as kunde_name", FromReports);
    case Export =>
      ExportColumnsHaveNoPlaceholder();
      NotInEither('?', "SELECT r.datum, k.name as kunde, " + "r.thema, r.dauer_minuten, "
        + "r.kosten, r.bezahlt, r.zahlungsart", FromReports);
  }

  lemma FromHasNoPlaceholder()
    ensures '?' !in FromReports
  {
    var from1, from2 := " FROM rapporte r" + " LEFT JOIN kunden k", " ON r.kunde_id = k.id" + " WHERE 1=1";
    assert '?' !in from1 by {
      NotInEither('?', " FROM rapporte r", " LEFT JOIN kunden k");
    }
    assert '?' !in from2 by {
      NotInEither('?', " ON r.kunde_id = k.id", " WHERE 1=1");
    }
    NotInEither('?', from1, from2);
  }

  lemma ExportColumnsHaveNoPlaceholder()
    ensures '?' !in "SELECT r.datum, k.name as kunde, " + "r.thema, r.dauer_minuten, " + "r.kosten, r.bezahlt, r.zahlungsart"
  {
    var cols1 := "SELECT r.datum, k.name as kunde, " + "r.thema, r.dauer_minuten, ";
    assert '?' !in cols1 by {
      NotInEither('?', "SELECT r.datum, k.name as kunde, ", "r.thema, r.dauer_minuten, ");
    }
    NotInEither('?', cols1, "r.kosten, r.bezahlt, r.zahlungsart");
  }

  lemma NotInEither(x: char, a: string, b: string)
    requires x !in a && x !in b
    ensures x !in a + b
  {
  }

  lemma CountZero(s: string, c: char)
    requires c !in s
    ensures Count(s, c) == 0
  {
    CountAbsent(s, c);
  }

  /** A clause text that ends in the one placeholder it holds. */
  lemma OnePlaceholder(clause: string, prefix: string)
    requires clause == prefix + "?" && '?' !in prefix
    ensures Count(clause, '?') == 1
  {
    assert Count("?", '?') == 1 by {
      assert "?"[1..] == [];
    }
    CountZero(prefix, '?');
    CountAppend(prefix, "?", '?');
  }

  lemma ClausePlaceholder(c: Condition)
    ensures Count(Clause(c), '?') == |Param(c)|
  {
    match c
    case CustomerIs(_) =>
      OnePlaceholder(" AND r.kunde_id = ?", " AND r.kunde_id = ");
    case DateFrom(_) =>
      OnePlaceholder(" AND r.datum >= ?", " AND r.datum >= ");
    case DateTo(_) =>
      OnePlaceholder(" AND r.datum <= ?", " AND r.datum <= ");
    case PaidOnly =>
      CountZero(" AND r.bezahlt = 1", '?');
    case UnpaidOnly =>
      CountZero(" AND r.bezahlt = 0", '?');
  }

  lemma {:induction false} ClausePlaceholders(cs: seq<Condition>)
    ensures Count(Clauses(cs), '?') == |Params(cs)|
  {
    if cs != [] {
      var c := cs[|cs| - 1];
      ClausePlaceholders(cs[..|cs| - 1]);
      CountAppend(Clauses(cs[..|cs| - 1]), Clause(c), '?');
      ClausePlaceholder(c);
    }
  }

  /** Each filter adds its clause exactly when it is set; the payment filter only for `1` or `0`. */
  lemma ConditionsPresent(f: Filters)
    ensures CustomerIs(f.kundeId) in Conditions(f) <==> f.kundeId != ""
    ensures DateFrom(f.vonDatum) in Conditions(f) <==> f.vonDatum != ""
    ensures DateTo(f.bisDatum) in Conditions(f) <==> f.bisDatum != ""
    ensures PaidOnly in Conditions(f) <==> f.bezahlt == "1"
    ensures UnpaidOnly in Conditions(f) <==> f.bezahlt == "0"
    ensures !(PaidOnly in Conditions(f) && UnpaidOnly in Conditions(f))
  {
  }

  /** The clauses come in the fixed order, at most one of each kind. */
  lemma ConditionsOrdered(f: Filters)
    ensures var cs := Conditions(f); forall i, j :: 0 <= i < j < |cs| ==> Rank(cs[i]) < Rank(cs[j])
  {
  }

  /** The values that are set, in the order client, from, to. */
  function NonEmpty(values: seq<string>): (r: seq<string>)
    ensures forall x :: x in r <==> x in values && x != ""
  {
    if values == [] then []
    else (if values[0] != "" then [values[0]] else []) + NonEmpty(values[1..])
  }

  /** The parameters are exactly the client, from and to filters that are set, in that order. */
  lemma ParamsAreSetFilters(f: Filters)
    ensures Params(Conditions(f)) == NonEmpty([f.kundeId, f.vonDatum, f.bisDatum])
  {
    ConditionsSplit(f);
    OptionalParts(f.kundeId != "", CustomerIs(f.kundeId));
    OptionalParts(f.vonDatum != "", DateFrom(f.vonDatum));
    OptionalParts(f.bisDatum != "", DateTo(f.bisDatum));
    PaymentParts(f.bezahlt);
    NonEmptyThree(f.kundeId, f.vonDatum, f.bisDatum);
  }

  lemma NonEmptyThree(x: string, y: string, z: string)
    ensures NonEmpty([x, y, z])
         == (if x != "" then [x] else []) + (if y != "" then [y] else []) + (if z != "" then [z] else [])
  {
    assert [x, y, z][1..] == [y, z];
    assert [y, z][1..] == [z];
    assert [z][1..] == [];
    assert NonEmpty([z]) == (if z != "" then [z] else []);
    assert NonEmpty([y, z]) == (if y != "" then [y] else []) + NonEmpty([z]);
  }

  lemma {:induction false} ParamsAppend(cs: seq<Condition>, ds: seq<Condition>)
    ensures Params(cs + ds) == Params(cs) + Params(ds)
  {
    if ds == [] {
      assert cs + ds == cs;
    } else {
      var init := ds[..|ds| - 1];
      var last := ds[|ds| - 1];
      ParamsAppend(cs, init);
      LastSplit(ds);
      SeqAssoc(cs, init, [last]);
      ClausesSnoc(cs + init, last);
      ClausesSnoc(init, last);
      SeqAssoc(Params(cs), Params(init), Param(last));
    }
  }

  lemma {:induction false} ClausesAppend(cs: seq<Condition>, ds: seq<Condition>)
    ensures Clauses(cs + ds) == Clauses(cs) + Clauses(ds)
  {
    if ds == [] {
      assert cs + ds == cs;
    } else {
      var init := ds[..|ds| - 1];
      var last := ds[|ds| - 1];
      ClausesAppend(cs, init);
      LastSplit(ds);
      SeqAssoc(cs, init, [last]);
      ClausesSnoc(cs + init, last);
      ClausesSnoc(init, last);
      SeqAssoc(Clauses(cs), Clauses(init), Clause(last));
    }
  }

  /** The clauses and the parameters of the four filters, one filter after the other. */
  lemma ConditionsSplit(f: Filters)
    ensures var a, b, c, d := Optional(f.kundeId != "", CustomerIs(f.kundeId)),
                              Optional(f.vonDatum != "", DateFrom(f.vonDatum)),
                              Optional(f.bisDatum != "", DateTo(f.bisDatum)),
                              PaymentCondition(f.bezahlt);
      Clauses(Conditions(f)) == Clauses(a) + Clauses(b) + Clauses(c) + Clauses(d) &&
      Params(Conditions(f)) == Params(a) + Params(b) + Params(c) + Params(d)
  {
    var a, b, c, d := Optional(f.kundeId != "", CustomerIs(f.kundeId)),
                      Optional(f.vonDatum != "", DateFrom(f.vonDatum)),
                      Optional(f.bisDatum != "", DateTo(f.bisDatum)),
                      PaymentCondition(f.bezahlt);
    ClausesAppend(a + b + c, d);
    ClausesAppend(a + b, c);
    ClausesAppend(a, b);
    ParamsAppend(a + b + c, d);
    ParamsAppend(a + b, c);
    ParamsAppend(a, b);
  }

  lemma OptionalParts(isSet: bool, c: Condition)
    ensures Clauses(Optional(isSet, c)) == (if isSet then Clause(c) else [])
    ensures Params(Optional(isSet, c)) == (if isSet then Param(c) else [])
  {
    if isSet {
      assert [c][..0] == [];
    }
  }

  lemma PaymentParts(bezahlt: string)
    ensures Clauses(PaymentCondition(bezahlt))
         == (if bezahlt == "1" then Clause(PaidOnly) else if bezahlt == "0" then Clause(UnpaidOnly) else [])
    ensures Params(PaymentCondition(bezahlt)) == []
  {
    OptionalParts(true, PaidOnly);
    OptionalParts(true, UnpaidOnly);
  }

  /**
   * Filter values only ever reach the parameters: two requests that set the same filters
   * (and the same payment choice) get the same query text.
   */
  lemma QueryTextIgnoresValues(v: View, f: Filters, g: Filters)
    requires (f.kundeId == "") == (g.kundeId == "")
    requires (f.vonDatum == "") == (g.vonDatum == "")
    requires (f.bisDatum == "") == (g.bisDatum == "")
    requires (f.bezahlt == "1") == (g.bezahlt == "1") && (f.bezahlt == "0") == (g.bezahlt == "0")
    ensures Base(v) + Clauses(Conditions(f)) + OrderBy == Base(v) + Clauses(Conditions(g)) + OrderBy
  {
    ConditionsSplit(f);
    ConditionsSplit(g);
    OptionalParts(f.kundeId != "", CustomerIs(f.kundeId));
    OptionalParts(f.vonDatum != "", DateFrom(f.vonDatum));
    OptionalParts(f.bisDatum != "", DateTo(f.bisDatum));
    OptionalParts(g.kundeId != "", CustomerIs(g.kundeId));
    OptionalParts(g.vonDatum != "", DateFrom(g.vonDatum));
    OptionalParts(g.bisDatum != "", DateTo(g.bisDatum));
    PaymentParts(f.bezahlt);
    PaymentParts(g.bezahlt);
    assert Clauses(Conditions(f)) == Clauses(Conditions(g));
  }

  /**
   * Lines 354-358: the PDF's filter line names the date filters that are set, each in the
   * Swiss format; it is left out when neither is set.
   */
  function FilterInfo(f: Filters): (info: seq<string>)
    ensures info == [] <==> f.vonDatum == "" && f.bisDatum == ""
    ensures |info| == (if f.vonDatum != "" then 1 else 0) + (if f.bisDatum != "" then 1 else 0)
  {
    (if f.vonDatum != "" then ["Von: " + FormatDateCh(Some(f.vonDatum))] else [])
    + (if f.bisDatum != "" then ["Bis: " + FormatDateCh(Some(f.bisDatum))] else [])
  }

  /** ISO dates in both date filters appear as `Von: DD.MM.YYYY` and `Bis: DD.MM.YYYY`. */
  lemma FilterInfoSwiss(f: Filters, y: string, m: string, d: string, y': string, m': string, d': string)
    requires f.vonDatum == y + "-" + m + "-" + d && '-' !in y && '-' !in m && '-' !in d && |y| + |m| + |d| == 8
    requires f.bisDatum == y' + "-" + m' + "-" + d' && '-' !in y' && '-' !in m' && '-' !in d' && |y'| + |m'| + |d'| == 8
    ensures FilterInfo(f) == ["Von: " + (d + "." + m + "." + y), "Bis: " + (d' + "." + m' + "." + y')]
  {
    assert f.vonDatum == y + "-" + m + "-" + d + [];
    assert f.bisDatum == y' + "-" + m' + "-" + d' + [];
    RewritesIsoDate(y, m, d, []);
    RewritesIsoDate(y', m', d', []);
  }
  /** An ISO date in the from-filter alone appears as the single line `Von: DD.MM.YYYY`. */
  lemma FilterInfoVon(f: Filters, y: string, m: string, d: string)
    requires f.vonDatum == y + "-" + m + "-" + d && '-' !in y && '-' !in m && '-' !in d && |y| + |m| + |d| == 8
    requires f.bisDatum == ""
    ensures FilterInfo(f) == ["Von: " + (d + "." + m + "." + y)]
  {
    assert f.vonDatum == y + "-" + m + "-" + d + [];
    RewritesIsoDate(y, m, d, []);
  }

  /** An ISO date in the to-filter alone appears as the single line `Bis: DD.MM.YYYY`. */
  lemma FilterInfoBis(f: Filters, y: string, m: string, d: string)
    requires f.vonDatum == ""
    requires f.bisDatum == y + "-" + m + "-" + d && '-' !in y && '-' !in m && '-' !in d && |y| + |m| + |d| == 8
    ensures FilterInfo(f) == ["Bis: " + (d + "." + m + "." + y)]
  {
    assert f.bisDatum == y + "-" + m + "-" + d + [];
    RewritesIsoDate(y, m, d, []);
  }
}
