/**
 * The SQL text of the song-list query (database.go `BuildListQuery`): the
 * song/group projection, one `IN` condition per filtering key joined with
 * `AND`, and `LIMIT 10 OFFSET (page-1)*10` when a page is given. The text is
 * modelled, not its evaluation.
 */
module ListQuery {
  import opened Text
  import opened Numbers
  import opened Dates
  import opened Params

  /** The unfiltered projection of every song joined with its group (line 107). */
  const Base: string := "SELECT s.name song, g.name \"group\", \"release_date\", \"text\", \"link\" FROM \"Song\" s JOIN \"Group\" g on s.group_id = g.group_id "

  /** Rows per page; `onpage` is never consulted. */
  const PageSize: int := 10

  /** A key adds a condition when it is not "page" and has at least one value. */
  predicate Filters(params: Query, key: string)
  {
    key in params && key != "page" && |params[key]| != 0
  }

  /** The name a key goes by in the condition: "releasedate" is renamed "release_date". */
  function Column(key: string): string
  {
    if key == "releasedate" then "release_date" else key
  }

  /**
   * A release-date value rewritten from "DD.MM.YYYY" to "YYYY-MM-DD" through
   * the strict layout; text the layout rejects becomes Go's zero date.
   */
  function StorageDate(value: string): string
  {
    FormatIso(match ParseDate(Strict, value) case Some(d) => d case None => Zero)
  }

  /** One value as it appears between the quotes of the `IN` list. */
  function Literal(column: string, value: string): string
  {
    if column == "release_date" then StorageDate(value) else value
  }

  function Literals(column: string, values: seq<string>): (r: seq<string>)
    ensures |r| == |values|
    ensures forall i | 0 <= i < |values| :: r[i] == Literal(column, values[i])
    decreases |values|
  {
    if |values| == 0 then []
    else Literals(column, values[..|values| - 1]) + [Literal(column, values[|values| - 1])]
  }

  /** The text before the first value: `s.name`, `g.name`, or the column name as a quoted string literal. */
  function Opening(column: string): string
  {
    if column == "song" then "s.name IN ('"
    else if column == "group" then "g.name IN ('"
    else "'" + column + "' IN ('"
  }

  /** One filtering key and its values: the structure of one condition, apart from its text. */
  datatype Clause = Clause(key: string, values: seq<string>)

  /** `<column> IN ('v1', 'v2', ...)` for one clause. */
  function Condition(c: Clause): string
  {
    Opening(Column(c.key)) + Join(Literals(Column(c.key), c.values), "', '") + "')"
  }

  /** The clause one more key of the order adds: its own, if it filters. */
  function Added(params: Query, key: string): seq<Clause>
  {
    if Filters(params, key) then [Clause(key, params[key])] else []
  }

  /** The clauses, one per filtering key, in iteration order. */
  function Clauses(params: Query, order: seq<string>): seq<Clause>
    decreases |order|
  {
    if |order| == 0 then []
    else Clauses(params, order[..|order| - 1]) + Added(params, order[|order| - 1])
  }

  /** The text of each clause. */
  function Rendered(clauses: seq<Clause>): (r: seq<string>)
    ensures |r| == |clauses|
    decreases |clauses|
  {
    if |clauses| == 0 then []
    else Rendered(clauses[..|clauses| - 1]) + [Condition(clauses[|clauses| - 1])]
  }

  /** `(page-1)*10` in Go's 64-bit `int`. */
  function PageOffset(page: int): int
  {
    Wrap64(Wrap64(page - 1) * PageSize)
  }

  /** `LIMIT 10 OFFSET n` when "page" has a value (read with Atoi, its error ignored). */
  function LimitClause(params: Query): string
  {
    if "page" in params && |params["page"]| != 0 then
      "LIMIT 10 OFFSET " + Itoa(PageOffset(Atoi(params["page"][0]).value))
    else ""
  }

  /** " WHERE ", the conditions joined by " AND ", and a space; nothing when there is no condition. */
  function Where(conditions: seq<string>): string
  {
    if |conditions| == 0 then "" else " WHERE " + Join(conditions, " AND ") + " "
  }

  /** The query as a whole: the projection, the conditions, then the limit clause. */
  function Statement(params: Query, order: seq<string>): string
  {
    Base + Where(Rendered(Clauses(params, order))) + LimitClause(params)
  }

  /** No clause exactly when no key of the order filters. */
  lemma {:induction false} ClausesEmpty(params: Query, order: seq<string>)
    ensures Clauses(params, order) == [] <==> forall i | 0 <= i < |order| :: !Filters(params, order[i])
    decreases |order|
  {
    if |order| > 0 {
      var n := |order| - 1;
      var init := order[..n];
      ClausesEmpty(params, init);
      assert forall i | 0 <= i < n :: init[i] == order[i];
    }
  }

  /** Extending the order by one key adds that key's clause, if it filters. */
  lemma ClausesSnoc(params: Query, order: seq<string>, k: nat)
    requires k < |order|
    ensures Clauses(params, order[..k + 1]) == Clauses(params, order[..k]) + Added(params, order[k])
  {
    assert order[..k + 1][..k] == order[..k];
  }

  /** Rendering distributes over concatenation. */
  lemma {:induction false} RenderedAppend(a: seq<Clause>, b: seq<Clause>)
    ensures Rendered(a + b) == Rendered(a) + Rendered(b)
    decreases |b|
  {
    if |b| == 0 {
      assert a + b == a;
    } else {
      var n := |b| - 1;
      assert (a + b)[..|a + b| - 1] == a + b[..n];
      assert (a + b)[|a + b| - 1] == b[n];
      RenderedAppend(a, b[..n]);
      assert Rendered(a + b) == Rendered(a) + Rendered(b[..n]) + [Condition(b[n])];
    }
  }

  /**
   * The value loop of `BuildListQuery` (lines 130-137): every value, rewritten
   * when the column is "release_date", followed by "', '"; then the last
   * three characters cut. What is left is the values joined by "', '" and a
   * closing quote.
   */
  method AppendValues(query: string, column: string, list: seq<string>) returns (q: string)
    requires |list| >= 1
    ensures q == query + Join(Literals(column, list), "', '") + "'"
  {
    ghost var literals := Literals(column, list);
    q := query;
    var j := 0;
    while j < |list|
      invariant 0 <= j <= |list|
      invariant q == query + Terminated(literals[..j], "', '")
    {
      var value := Literal(column, list[j]);
      AccumulateNext(query, literals, j, q, value, "', '");
      q := q + value + "', '";
      j := j + 1;
    }
    CutQuote(query, literals);
    q := q[..|q| - 3];
  }

  /** Cutting "', " off the values each followed by "', '" leaves them joined and a closing quote. */
  lemma CutQuote(query: string, literals: seq<string>)
    requires |literals| >= 1
    ensures var t := query + Terminated(literals[..|literals|], "', '");
            |t| >= 3 && t[..|t| - 3] == query + Join(literals, "', '") + "'"
  {
    assert literals[..|literals|] == literals;
    TerminatedIsJoined(literals, "', '");
    var t := query + Terminated(literals, "', '");
    var kept := query + Join(literals, "', '") + "'";
    assert |t| == |kept| + 3;
    forall i | 0 <= i < |kept|
      ensures t[i] == kept[i]
    {
    }
  }

  /** One pass of the second loop's body (lines 119-138): the key's condition and ") AND ". */
  method AppendCondition(query: string, key: string, list: seq<string>) returns (q: string)
    requires |list| >= 1
    ensures q == query + (Condition(Clause(key, list)) + " AND ")
  {
    var column := Column(key);
    ghost var values := Join(Literals(column, list), "', '");
    q := query + Opening(column);
    q := AppendValues(q, column, list);
    q := q + ") AND ";
    CloseCondition(query, Opening(column), values, q);
  }

  /** The opening, the values and "'" followed by ") AND " are the condition followed by " AND ". */
  lemma CloseCondition(query: string, opening: string, values: string, q: string)
    requires q == query + opening + values + "'" + ") AND "
    ensures q == query + (opening + values + "')" + " AND ")
  {
    assert "'" + ") AND " == "')" + " AND ";
  }

  /**
   * With conditions, the text between the projection and the limit clause is
   * " WHERE ", each condition followed by " AND ", and the last "AND " cut off.
   */
  lemma WhereCut(base: string, conditions: seq<string>, accumulated: string)
    requires |conditions| > 0
    requires accumulated == base + " WHERE " + Terminated(conditions, " AND ")
    ensures |accumulated| >= 4 && accumulated[..|accumulated| - 4] == base + Where(conditions)
  {
    TerminatedIsJoined(conditions, " AND ");
    CutAnd(base, Join(conditions, " AND "));
  }

  /** Without conditions nothing comes between the projection and the limit clause. */
  lemma WhereNone(base: string, conditions: seq<string>, accumulated: string)
    requires |conditions| == 0
    requires accumulated == base + Terminated(conditions, " AND ")
    ensures accumulated == base + Where(conditions)
  {
    assert accumulated == base + "";
  }

  /** Cutting "AND " off " WHERE ", the joined conditions and " AND " keeps the space. */
  lemma CutAnd(base: string, joined: string)
    ensures var t := base + " WHERE " + (joined + " AND ");
            |t| >= 4 && t[..|t| - 4] == base + (" WHERE " + joined + " ")
  {
    var t := base + " WHERE " + (joined + " AND ");
    var kept := base + (" WHERE " + joined + " ");
    assert |t| == |kept| + 4;
    forall i | 0 <= i < |kept|
      ensures t[i] == kept[i]
    {
    }
  }

  /** The first loop of `BuildListQuery` (lines 110-115): is there a key that filters? */
  method AnyFilter(params: Query, order: seq<string>) returns (found: bool)
    requires forall key | key in order :: key in params
    ensures found <==> |Clauses(params, order)| != 0
  {
    ClausesEmpty(params, order);
    found := false;
    var i := 0;
    while i < |order|
      invariant 0 <= i <= |order|
      invariant forall m | 0 <= m < i :: !Filters(params, order[m])
    {
      var list := params[order[i]];
      if |list| > 0 && order[i] != "page" {
        found := true;
        break;
      }
      i := i + 1;
    }
  }

  /** Accumulating one more clause: its condition and " AND " follow the earlier ones. */
  lemma AccumulateClause(query: string, done: seq<Clause>, c: Clause, before: string, after: string)
    requires before == query + Terminated(Rendered(done), " AND ")
    requires after == before + (Condition(c) + " AND ")
    ensures after == query + Terminated(Rendered(done + [c]), " AND ")
  {
    TerminatedSingle(c, " AND ");
    RenderedAppend(done, [c]);
    AccumulateMore(query, Rendered(done), Rendered([c]), " AND ", before, after);
  }

  /** The accumulation of a single clause is its condition followed by the separator. */
  lemma TerminatedSingle(c: Clause, sep: string)
    ensures Terminated(Rendered([c]), sep) == Condition(c) + sep
  {
    assert [c][..0] == [];
    assert Rendered([c]) == [Condition(c)];
    assert Terminated([Condition(c)], sep) == Condition(c) + sep + Terminated([], sep);
  }

  /**
   * The second loop of `BuildListQuery` (lines 117-140): per filtering key
   * its opening, its values and ") AND ". It appends every condition, each
   * followed by " AND ", and reports whether there was none.
   */
  method AppendConditions(query: string, params: Query, order: seq<string>) returns (q: string, emptyParams: bool)
    requires forall key | key in order :: key in params
    ensures emptyParams <==> |Clauses(params, order)| == 0
    ensures q == query + Terminated(Rendered(Clauses(params, order)), " AND ")
  {
    q := query;
    emptyParams := true;
    ghost var done: seq<Clause> := [];
    var k := 0;
    while k < |order|
      invariant 0 <= k <= |order|
      invariant done == Clauses(params, order[..k])
      invariant emptyParams <==> |done| == 0
      invariant q == query + Terminated(Rendered(done), " AND ")
    {
      var key := order[k];
      assert key in order;
      var list := params[key];
      ghost var before := q;
      ClausesSnoc(params, order, k);
      if key != "page" && |list| != 0 {
        emptyParams := false;
        q := AppendCondition(q, key, list);
        AccumulateClause(query, done, Clause(key, list), before, q);
        done := done + [Clause(key, list)];
      } else {
        assert done + Added(params, key) == done;
      }
      k := k + 1;
    }
    assert order[..k] == order;
  }

  /**
   * The page step of `BuildListQuery` (lines 146-149). Without a page value
   * the query is unchanged; a page p in 1..922337203685477581 appends
   * "LIMIT 10 OFFSET " and the decimal (p-1)*10; a short page value that is
   * no numeral reads as 0 (Atoi's error is ignored) and gives offset -10.
   */
  method AppendLimit(query: string, params: Query) returns (q: string)
    ensures "page" !in params || |params["page"]| == 0 ==> q == query
    ensures "page" in params && |params["page"]| != 0 ==> var page := params["page"][0];
              && (IsDecimal(page) && 1 <= DecimalValue(page) <= 922337203685477581 ==>
                    q == query + "LIMIT 10 OFFSET " + Itoa((DecimalValue(page) - 1) * PageSize))
              && (0 < |page| < 19 && !IsDecimal(page) ==> q == query + "LIMIT 10 OFFSET -10")
    ensures q == query + LimitClause(params)
  {
    q := query;
    if "page" in params && |params["page"]| != 0 {
      var page := Atoi(params["page"][0]).value;
      if Atoi(params["page"][0]).ok && page >= 1 {
        PageOffsetExact(page);
      } else if !Atoi(params["page"][0]).ok && 0 < |params["page"][0]| < 19 {
        assert page == 0;
        assert Itoa(-10) == "-10" by { assert Digits(10) == "10"; }
      }
      var limit := "LIMIT 10 OFFSET " + Itoa(PageOffset(page));
      q := q + limit;
    }
  }

  /**
   * `BuildListQuery` as the Go code builds it: " WHERE " if any key filters,
   * every condition followed by " AND ", the trailing "AND " cut when there
   * was a condition, then the limit clause. The text built is `Statement`.
   */
  method BuildListQuery(params: Query, order: seq<string>) returns (query: string)
    requires Enumerates(order, params.Keys)
    ensures query == Statement(params, order)
  {
    assert forall key | key in order :: key in params;
    ghost var conditions := Rendered(Clauses(params, order));
    query := Base;
    var found := AnyFilter(params, order);
    if found {
      query := query + " WHERE ";
    }
    var emptyParams;
    query, emptyParams := AppendConditions(query, params, order);
    if !emptyParams {
      WhereCut(Base, conditions, query);
      query := query[..|query| - 4];
    } else {
      WhereNone(Base, conditions, query);
    }
    query := AppendLimit(query, params);
  }

  /** Which clauses there are: one per filtering key of the order, carrying that key's values. */
  lemma {:induction false} ClauseMembership(params: Query, order: seq<string>, c: Clause)
    ensures c in Clauses(params, order) <==> c.key in order && Filters(params, c.key) && c.values == params[c.key]
    decreases |order|
  {
    if |order| > 0 {
      var n := |order| - 1;
      ClauseMembership(params, order[..n], c);
      assert order == order[..n] + [order[n]];
    }
  }

  /** A duplicate-free order yields duplicate-free clauses. */
  lemma {:induction false} ClausesDistinct(params: Query, order: seq<string>)
    requires Distinct(order)
    ensures Distinct(Clauses(params, order))
    decreases |order|
  {
    if |order| > 0 {
      var n := |order| - 1;
      var init := order[..n];
      ClausesDistinct(params, init);
      if Filters(params, order[n]) {
        var c := Clause(order[n], params[order[n]]);
        ClauseMembership(params, init, c);
        assert order[n] !in init;
        DistinctSnoc(Clauses(params, init), c);
      }
    }
  }

  /**
   * The clauses do not depend on the iteration order beyond their own order:
   * two orders of one map give the same clauses up to permutation.
   */
  lemma ClausesPermutation(params: Query, a: seq<string>, b: seq<string>)
    requires Enumerates(a, params.Keys) && Enumerates(b, params.Keys)
    ensures multiset(Clauses(params, a)) == multiset(Clauses(params, b))
  {
    ClausesDistinct(params, a);
    ClausesDistinct(params, b);
    forall c
      ensures c in Clauses(params, a) <==> c in Clauses(params, b)
    {
      ClauseMembership(params, a, c);
      ClauseMembership(params, b, c);
    }
    DistinctPermutation(Clauses(params, a), Clauses(params, b));
  }

  /** Rendering one clause gives its condition. */
  lemma RenderedSingle(c: Clause)
    ensures Rendered([c]) == [Condition(c)]
  {
    assert [c][..0] == [];
  }

  /** Rendering is applying `Condition` to every clause. */
  lemma {:induction false} RenderedIsMapped(clauses: seq<Clause>)
    ensures Rendered(clauses) == Mapped(Condition, clauses)
    decreases |clauses|
  {
    if |clauses| > 0 {
      RenderedIsMapped(clauses[..|clauses| - 1]);
    }
  }

  /**
   * The WHERE conjuncts are the same for every iteration order of the
   * parameter map, up to permutation; only their order in the text varies.
   */
  lemma ConjunctsPermutation(params: Query, a: seq<string>, b: seq<string>)
    requires Enumerates(a, params.Keys) && Enumerates(b, params.Keys)
    ensures multiset(Rendered(Clauses(params, a))) == multiset(Rendered(Clauses(params, b)))
  {
    ClausesPermutation(params, a, b);
    RenderedIsMapped(Clauses(params, a));
    RenderedIsMapped(Clauses(params, b));
    MappedPermutation(Condition, Clauses(params, a), Clauses(params, b));
  }

  /**
   * Without a key other than "page" that has values, the query is the bare
   * projection followed by the limit clause; with one, " WHERE " follows the
   * projection.
   */
  lemma NoFilterNoWhere(params: Query, order: seq<string>)
    requires Enumerates(order, params.Keys)
    ensures (forall key | key in params :: !Filters(params, key)) <==> Statement(params, order) == Base + LimitClause(params)
  {
    ClausesEmpty(params, order);
    LimitOpens(params);
    WhereEmpty(Base, Rendered(Clauses(params, order)), LimitClause(params));
  }

  /** The WHERE part leaves the text unchanged exactly when there is no condition. */
  lemma WhereEmpty(base: string, conditions: seq<string>, limit: string)
    requires limit == "" || limit[0] == 'L'
    ensures base + Where(conditions) + limit == base + limit <==> |conditions| == 0
  {
    if |conditions| == 0 {
      assert base + "" + limit == base + limit;
    } else {
      WhereOpens(conditions);
      Inserted(base, Where(conditions), limit);
    }
  }

  /** A WHERE part starts with a space. */
  lemma WhereOpens(conditions: seq<string>)
    requires |conditions| > 0
    ensures |Where(conditions)| > 0 && Where(conditions)[0] == ' '
  {
  }

  /** A limit clause, when there is one, starts with 'L'. */
  lemma LimitOpens(params: Query)
    ensures LimitClause(params) == "" || LimitClause(params)[0] == 'L'
  {
  }

  /** Text starting with a space, inserted before text that does not, changes the whole. */
  lemma Inserted(base: string, w: string, limit: string)
    requires |w| > 0 && w[0] == ' '
    requires limit == "" || limit[0] == 'L'
    ensures base + w + limit != base + limit
  {
    assert (base + w + limit)[|base|] == ' ';
    if limit != "" {
      assert (base + limit)[|base|] == 'L';
    }
  }

  /** The text of one value list when the column is not the release date: the values unchanged. */
  lemma {:induction false} LiteralsPlain(column: string, values: seq<string>)
    requires column != "release_date"
    ensures Literals(column, values) == values
  {
  }

  /**
   * Condition shapes apart from the release date (`DateCondition`): "song"
   * filters on `s.name`, "group" on `g.name`, and every other key is
   * compared as the quoted string literal of its own name; the values
   * appear verbatim.
   */
  lemma ConditionShape(c: Clause)
    requires c.key != "releasedate" && c.key != "release_date"
    ensures c.key == "song" ==> Condition(c) == "s.name IN ('" + Join(c.values, "', '") + "')"
    ensures c.key == "group" ==> Condition(c) == "g.name IN ('" + Join(c.values, "', '") + "')"
    ensures c.key != "song" && c.key != "group" ==> Condition(c) == "'" + c.key + "' IN ('" + Join(c.values, "', '") + "')"
  {
    LiteralsPlain(c.key, c.values);
  }

  /**
   * The release-date condition: "releasedate" (or "release_date" itself) is
   * compared as the quoted literal 'release_date', with every value
   * rewritten to "yyyy-mm-dd" by `StorageDate`.
   */
  lemma DateCondition(key: string, values: seq<string>)
    requires key == "releasedate" || key == "release_date"
    ensures Condition(Clause(key, values)) ==
              "'release_date' IN ('" + Join(seq(|values|, i requires 0 <= i < |values| => StorageDate(values[i])), "', '") + "')"
  {
    assert Column(key) == "release_date";
    assert Opening("release_date") == "'release_date' IN ('";
    assert Literals("release_date", values) == seq(|values|, i requires 0 <= i < |values| => StorageDate(values[i]));
  }

  /**
   * A release date that passes the strict "02.01.2006" layout is rewritten
   * "yyyy-mm-dd" by moving its fields; anything else becomes "0001-01-01".
   */
  lemma StorageDateRewrite(value: string)
    ensures ParseDate(Strict, value).Some? ==> |value| == 10 && StorageDate(value) == value[6..10] + "-" + value[3..5] + "-" + value[0..2]
    ensures ParseDate(Strict, value).None? ==> StorageDate(value) == "0001-01-01"
  {
    match ParseDate(Strict, value)
    case Some(d) =>
      FormatOfStrictParse(value, d);
      IsoOfFormat(d);
    case None =>
      PadFour(1);
      PadTwo(1);
  }

  /** The offset is (p-1)*10 exactly for the pages 1..922337203685477581 that do not overflow int64. */
  lemma PageOffsetExact(p: int)
    requires InInt64(p) && p >= 1
    ensures PageOffset(p) == (p - 1) * PageSize <==> p <= 922337203685477581
  {
  }

  /** One page further the offset wraps around to a negative number. */
  lemma OffsetWraps()
    ensures PageOffset(922337203685477582) == -9223372036854775806
  {
    assert Wrap64(922337203685477581) == 922337203685477581;
  }

  /**
   * A first "page" value that reads as p in 1..922337203685477581 ends the
   * query with "LIMIT 10 OFFSET " and the decimal value of (p-1)*10.
   */
  lemma PageLimit(params: Query, order: seq<string>, p: int)
    requires "page" in params && |params["page"]| != 0
    requires IsDecimal(params["page"][0]) && DecimalValue(params["page"][0]) == p
    requires 1 <= p <= 922337203685477581
    ensures EndsWith(Statement(params, order), "LIMIT 10 OFFSET " + Itoa((p - 1) * PageSize))
  {
    PageOffsetExact(p);
    EndsWithAppend(Base + Where(Rendered(Clauses(params, order))), LimitClause(params));
  }

  /** "onpage" never changes the limit clause: the page size is fixed. */
  lemma OnpageIgnored(params: Query, values: seq<string>)
    ensures LimitClause(params["onpage" := values]) == LimitClause(params)
  {
  }
}
