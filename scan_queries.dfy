/** The SQL text of backend/controllers/scanController.js getScanHistory, built
    as the handler builds it. */
module ScanQueries {
  import opened Wrappers
  import opened Strings
  import opened Database

  /** A piece of SQL text whose only placeholder is its last character and
      which holds no '$'. */
  predicate EndsInPlaceholder(piece: string) {
    piece != [] && piece[|piece| - 1] == '?' && '?' !in piece[..|piece| - 1] && '$' !in piece
  }

  /** Appending such a piece adds one placeholder and no '$'. */
  lemma AppendPlaceholder(query: string, piece: string)
    requires EndsInPlaceholder(piece)
    ensures CountChar(query + piece, '?') == CountChar(query, '?') + 1
    ensures '$' !in query ==> '$' !in query + piece
  {
    var text := piece[..|piece| - 1];
    assert piece == text + "?";
    CountCharZero(text, '?');
    CountCharAppend(text, "?", '?');
    CountCharAppend(query, piece, '?');
  }

  /** The text and parameters of the filter, shared by the two statements of
      getScanHistory (lines 73-84 and 92-103): the query grows by `+=` and the
      parameters by `push`, one parameter per placeholder. */
  method FilterStatement(select: string, carId: string, lo: Option<int>, hi: Option<int>)
    returns (query: string, params: seq<SqlValue>)
    ensures '?' !in select ==> CountChar(query, '?') == |params|
    ensures '$' !in select ==> '$' !in query
    ensures params == [SqlText(carId)] + (if lo.Some? then [SqlTime(lo.value)] else [])
                                       + (if hi.Some? then [SqlTime(hi.value)] else [])
  {
    CountCharZero(select, '?');
    AppendPlaceholder(select, " WHERE carId = ?");
    query := select + " WHERE carId = ?";
    params := [SqlText(carId)];
    if lo.Some? {
      AppendPlaceholder(query, " AND timestamp >= ?");
      query := query + " AND timestamp >= ?";
      params := params + [SqlTime(lo.value)];
    }
    if hi.Some? {
      AppendPlaceholder(query, " AND timestamp <= ?");
      query := query + " AND timestamp <= ?";
      params := params + [SqlTime(hi.value)];
    }
  }

  /** `query += ' ORDER BY timestamp DESC LIMIT ? OFFSET ?'` and
      `params.push(limit, offset)` (lines 86-87). */
  method AppendPaging(query: string, params: seq<SqlValue>, limit: int, offset: int)
    returns (query': string, params': seq<SqlValue>)
    ensures CountChar(query', '?') == CountChar(query, '?') + 2
    ensures '$' !in query ==> '$' !in query'
    ensures params' == params + [SqlInt(limit), SqlInt(offset)]
  {
    var tail := " ORDER BY timestamp DESC LIMIT ? OFFSET ?";
    var limitPart, offsetPart := " ORDER BY timestamp DESC LIMIT ?", " OFFSET ?";
    assert tail == limitPart + offsetPart;
    AppendPlaceholder(query, limitPart);
    AppendPlaceholder(query + limitPart, offsetPart);
    assert query + limitPart + offsetPart == query + tail;
    query' := query + tail;
    params' := params + [SqlInt(limit), SqlInt(offset)];
  }

  /** A statement with one parameter per '?' and no '$' of its own reaches the
      driver numbered `$1` to `$n`, n the number of parameters. */
  method Prepare(sql: string, params: seq<SqlValue>) returns (st: Statement)
    requires CountChar(sql, '?') == |params| && '$' !in sql
    ensures st.params == params
    ensures '?' !in st.text && CountChar(st.text, '$') == |params|
  {
    st := Execute(sql, params);
    DollarCount(sql, 1);
    CountCharZero(sql, '$');
  }

  /** The page and count statements as the driver receives them (lines 73-105):
      every '?' became one numbered `$k`, one per parameter, and the count
      statement binds the page statement's parameters but the limit and offset. */
  method HistoryStatements(carId: string, lo: Option<int>, hi: Option<int>, limit: int, offset: int)
    returns (page: Statement, count: Statement)
    ensures '?' !in page.text && CountChar(page.text, '$') == |page.params|
    ensures '?' !in count.text && CountChar(count.text, '$') == |count.params|
    ensures page.params == count.params + [SqlInt(limit), SqlInt(offset)]
    ensures |count.params| == 1 + (if lo.Some? then 1 else 0) + (if hi.Some? then 1 else 0)
    ensures count.params[0] == SqlText(carId)
  {
    var select := "SELECT * FROM scans";
    assert '?' !in select && '$' !in select;
    var query, params := FilterStatement(select, carId, lo, hi);
    query, params := AppendPaging(query, params, limit, offset);
    var countSelect := "SELECT COUNT(*) as total FROM scans";
    assert '?' !in countSelect && '$' !in countSelect;
    var countQuery, countParams := FilterStatement(countSelect, carId, lo, hi);
    page := Prepare(query, params);
    count := Prepare(countQuery, countParams);
  }
}
