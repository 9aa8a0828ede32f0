/**
 * The SQL text and bound parameters DOperator produces. The database itself
 * is not modelled: each operation returns what it would send to the store
 * (statement text and parameter values), and the store's answers (the rows
 * of PRAGMA table_info, whether DDL succeeded) are inputs.
 */
module Statements {
  import opened Strings
  import opened Identifiers
  import opened Coercion

  // ---------------------------------------------------------------------
  // Column introspection (getTableColumnsWithTypesEscaped)

  /** One row of `PRAGMA table_info`: column name, declared type, pk flag. */
  datatype TableInfoRow = TableInfoRow(name: string, declType: string, pk: int)

  datatype ColumnInfo = ColumnInfo(name: string, colType: string)

  /** The auto-increment key: pk flag 1 and the name `id` in any case. */
  predicate IsIdColumn(r: TableInfoRow)
  {
    r.pk == 1 && EqualsIgnoreCase(r.name, "id")
  }

  function InfoOf(r: TableInfoRow): ColumnInfo
  {
    ColumnInfo(r.name, r.declType)
  }

  /** The columns kept from a table_info listing, in schema order. */
  function KeptColumns(rows: seq<TableInfoRow>): seq<ColumnInfo>
  {
    if rows == [] then []
    else
      var last := rows[|rows| - 1];
      KeptColumns(rows[..|rows| - 1]) + (if IsIdColumn(last) then [] else [InfoOf(last)])
  }

  method TableColumns(rows: seq<TableInfoRow>) returns (columns: seq<ColumnInfo>)
    ensures columns == KeptColumns(rows)
  {
    columns := [];
    var k := 0;
    while k < |rows|
      invariant 0 <= k <= |rows|
      invariant columns == KeptColumns(rows[..k])
    {
      var row := rows[k];
      if !(row.pk == 1 && EqualsIgnoreCase(row.name, "id")) {
        columns := columns + [ColumnInfo(row.name, row.declType)];
      }
      assert rows[..k + 1][..k] == rows[..k];
      k := k + 1;
    }
    assert rows[..|rows|] == rows;
  }

  /** Filtering distributes over concatenation: schema order is kept. */
  lemma {:induction false} KeptColumnsAppend(a: seq<TableInfoRow>, b: seq<TableInfoRow>)
    ensures KeptColumns(a + b) == KeptColumns(a) + KeptColumns(b)
  {
    if b == [] {
      assert a + b == a;
    } else {
      assert (a + b)[..|a + b| - 1] == a + b[..|b| - 1];
      KeptColumnsAppend(a, b[..|b| - 1]);
    }
  }

  /** Exactly the non-id rows are kept. */
  lemma {:induction false} KeptColumnsExact(rows: seq<TableInfoRow>)
    ensures forall k :: 0 <= k < |rows| && !IsIdColumn(rows[k]) ==> InfoOf(rows[k]) in KeptColumns(rows)
    ensures forall c :: c in KeptColumns(rows) ==>
      exists k :: 0 <= k < |rows| && !IsIdColumn(rows[k]) && c == InfoOf(rows[k])
  {
    if rows != [] {
      var init := rows[..|rows| - 1];
      KeptColumnsExact(init);
      forall c | c in KeptColumns(rows)
        ensures exists k :: 0 <= k < |rows| && !IsIdColumn(rows[k]) && c == InfoOf(rows[k])
      {
        if c in KeptColumns(init) {
          var k :| 0 <= k < |init| && !IsIdColumn(init[k]) && c == InfoOf(init[k]);
          assert rows[k] == init[k];
        } else {
          assert c == InfoOf(rows[|rows| - 1]);
        }
      }
      forall k | 0 <= k < |rows| && !IsIdColumn(rows[k])
        ensures InfoOf(rows[k]) in KeptColumns(rows)
      {
        if k < |init| {
          assert rows[k] == init[k];
        }
      }
    }
  }

  // ---------------------------------------------------------------------
  // CREATE TABLE (createTable)

  const IdColumnDefinition: string := "id INTEGER PRIMARY KEY AUTOINCREMENT"

  function ColumnDefinitions(keys: seq<string>, types: seq<string>): (defs: seq<string>)
    requires |keys| == |types|
    ensures |defs| == |keys|
  {
    seq(|keys|, i requires 0 <= i < |keys| => EscapeColumnName(keys[i]) + " " + types[i])
  }

  /** The statement createTable issues: the id key, then one column per key, in order. */
  function CreateTableSql(table: string, keys: seq<string>, types: seq<string>): string
    requires |keys| == |types|
  {
    "CREATE TABLE IF NOT EXISTS " + EscapeColumnName(table) + " (" +
    Join([IdColumnDefinition] + ColumnDefinitions(keys, types), ", ") + ");"
  }

  /**
   * createTable: refuses mismatched keys and types without issuing anything;
   * otherwise issues CreateTableSql, and succeeds exactly when the store
   * accepts it (`ddlSucceeds`).
   */
  method CreateTable(table: string, keys: seq<string>, types: seq<string>, ddlSucceeds: bool)
    returns (created: bool, statement: Option<string>)
    ensures |keys| != |types| ==> !created && statement == None
    ensures |keys| == |types| ==>
      created == ddlSucceeds && statement == Some(CreateTableSql(table, keys, types))
  {
    if |keys| != |types| {
      return false, None;
    }
    var prefix := "CREATE TABLE IF NOT EXISTS " + EscapeColumnName(table) + " (";
    var body := "id INTEGER PRIMARY KEY AUTOINCREMENT";
    ghost var defs := [IdColumnDefinition] + ColumnDefinitions(keys, types);
    assert Join(defs[..1], ", ") == body;
    var i := 0;
    while i < |keys|
      invariant 0 <= i <= |keys|
      invariant body == Join(defs[..i + 1], ", ")
    {
      var def := EscapeColumnName(keys[i]) + " " + types[i];
      assert defs[i + 1] == ColumnDefinitions(keys, types)[i] == def;
      JoinPrefixStep(defs, i + 1, ", ");
      assert Join(defs[..i + 2], ", ") == body + ", " + def;
      body := body + ", " + def;
      i := i + 1;
    }
    assert defs[..|keys| + 1] == defs;
    statement := Some(prefix + body + ");");
    created := ddlSucceeds;
  }

  // ---------------------------------------------------------------------
  // INSERT (batchInsert, insert)

  function EscapedNames(columns: seq<ColumnInfo>): (names: seq<string>)
    ensures |names| == |columns|
  {
    seq(|columns|, i requires 0 <= i < |columns| => EscapeColumnName(columns[i].name))
  }

  function Placeholders(n: nat): (marks: seq<string>)
    ensures |marks| == n
  {
    seq(n, i => "?")
  }

  function InsertSql(table: string, columns: seq<ColumnInfo>): string
  {
    "INSERT INTO " + EscapeColumnName(table) + " (" + Join(EscapedNames(columns), ", ") +
    ") VALUES (" + Join(Placeholders(|columns|), ", ") + ");"
  }

  /** The StringBuilder idiom: append each part, and the separator after all but the last. */
  method AppendJoined(sb: string, parts: seq<string>, sep: string) returns (out: string)
    ensures out == sb + Join(parts, sep)
  {
    out := sb;
    var i := 0;
    while i < |parts|
      invariant 0 <= i <= |parts|
      invariant out == sb + Join(parts[..i], sep) + (if 0 < i < |parts| then sep else "")
    {
      out := out + parts[i];
      if i > 0 {
        JoinPrefixStep(parts, i, sep);
      } else {
        assert parts[..1] == [parts[0]];
      }
      assert out == sb + Join(parts[..i + 1], sep);
      if i < |parts| - 1 {
        out := out + sep;
      }
      i := i + 1;
    }
    assert parts[..|parts|] == parts;
  }

  method BuildInsertSql(table: string, columns: seq<ColumnInfo>) returns (sql: string)
    ensures sql == InsertSql(table, columns)
  {
    var names := seq(|columns|, i requires 0 <= i < |columns| => EscapeColumnName(columns[i].name));
    sql := AppendJoined("INSERT INTO " + EscapeColumnName(table) + " (", names, ", ");
    sql := AppendJoined(sql + ") VALUES (", Placeholders(|columns|), ", ");
    sql := sql + ");";
  }

  /** The bound values of one row: one per column, by FieldValue. */
  function BoundRow(row: seq<string>, columns: seq<ColumnInfo>, isDouble: DoubleSyntax, strip: bool)
    : (values: seq<SqlValue>)
    ensures |values| == |columns|
  {
    seq(|columns|, i requires 0 <= i < |columns| =>
      FieldValue(row, i, columns[i].name, columns[i].colType, isDouble, strip))
  }

  method BindRow(row: seq<string>, columns: seq<ColumnInfo>, isDouble: DoubleSyntax, strip: bool)
    returns (values: seq<SqlValue>)
    ensures values == BoundRow(row, columns, isDouble, strip)
  {
    values := [];
    var i := 0;
    while i < |columns|
      invariant 0 <= i <= |columns|
      invariant values == BoundRow(row, columns[..i], isDouble, strip)
    {
      var v: SqlValue;
      if i < |row| {
        var value := Trim(row[i]);
        if value == [] {
          v := Null;
        } else {
          v := Coerce(value, columns[i].name, columns[i].colType, isDouble, strip);
        }
      } else {
        v := Null;
      }
      values := values + [v];
      i := i + 1;
    }
    assert columns[..|columns|] == columns;
  }

  /** Fields beyond the column count do not change what is bound. */
  lemma BoundRowIgnoresExtraFields(row: seq<string>, extra: seq<string>, columns: seq<ColumnInfo>,
                                   isDouble: DoubleSyntax, strip: bool)
    requires |row| >= |columns|
    ensures BoundRow(row + extra, columns, isDouble, strip) == BoundRow(row, columns, isDouble, strip)
  {
    assert forall i :: 0 <= i < |columns| ==> (row + extra)[i] == row[i];
  }

  /** A row shorter than the columns is padded with NULL. */
  lemma BoundRowPadsWithNull(row: seq<string>, columns: seq<ColumnInfo>, isDouble: DoubleSyntax,
                             strip: bool, i: nat)
    requires |row| <= i < |columns|
    ensures BoundRow(row, columns, isDouble, strip)[i] == Null
  {
  }

  /** The bound values of every row, in input order. */
  method BindRows(rows: seq<seq<string>>, columns: seq<ColumnInfo>, isDouble: DoubleSyntax, strip: bool)
    returns (batch: seq<seq<SqlValue>>)
    ensures |batch| == |rows|
    ensures forall j :: 0 <= j < |rows| ==> batch[j] == BoundRow(rows[j], columns, isDouble, strip)
  {
    batch := [];
    var r := 0;
    while r < |rows|
      invariant 0 <= r <= |rows|
      invariant |batch| == r
      invariant forall j :: 0 <= j < r ==> batch[j] == BoundRow(rows[j], columns, isDouble, strip)
    {
      var values := BindRow(rows[r], columns, isDouble, strip);
      batch := batch + [values];
      r := r + 1;
    }
  }

  /** What a write asks of the store. */
  datatype Write =
    | NothingToInsert
    | MissingColumns
    | Execute(sql: string, batch: seq<seq<SqlValue>>)

  /**
   * batchInsert: null or no rows does nothing; a table without non-id
   * columns is an error; otherwise one INSERT with one bound row per input row.
   */
  method BatchInsert(table: string, rows: Option<seq<seq<string>>>, info: seq<TableInfoRow>,
                     isDouble: DoubleSyntax)
    returns (w: Write)
    ensures rows.None? || rows.value == [] ==> w == NothingToInsert
    ensures rows.Some? && rows.value != [] && KeptColumns(info) == [] ==> w == MissingColumns
    ensures rows.Some? && rows.value != [] && KeptColumns(info) != [] ==>
      w.Execute? && w.sql == InsertSql(table, KeptColumns(info)) && |w.batch| == |rows.value| &&
      forall r :: 0 <= r < |rows.value| ==>
        w.batch[r] == BoundRow(rows.value[r], KeptColumns(info), isDouble, true)
  {
    if rows.None? || rows.value == [] {
      return NothingToInsert;
    }
    var columns := TableColumns(info);
    if columns == [] {
      return MissingColumns;
    }
    var sql := BuildInsertSql(table, columns);
    var batch := BindRows(rows.value, columns, isDouble, true);
    w := Execute(sql, batch);
  }

  /** insert: the same statement for one row, without the `annotations` clean-up. */
  method Insert(table: string, row: Option<seq<string>>, info: seq<TableInfoRow>, isDouble: DoubleSyntax)
    returns (w: Write)
    ensures row.None? || row.value == [] ==> w == NothingToInsert
    ensures row.Some? && row.value != [] && KeptColumns(info) == [] ==> w == MissingColumns
    ensures row.Some? && row.value != [] && KeptColumns(info) != [] ==>
      w == Execute(InsertSql(table, KeptColumns(info)), [BoundRow(row.value, KeptColumns(info), isDouble, false)])
  {
    if row.None? || row.value == [] {
      return NothingToInsert;
    }
    var columns := TableColumns(info);
    if columns == [] {
      return MissingColumns;
    }
    var sql := BuildInsertSql(table, columns);
    var values := BindRow(row.value, columns, isDouble, false);
    w := Execute(sql, [values]);
  }

  /** The INSERT has one `?` per bound value, when no name contains `?` itself. */
  lemma InsertPlaceholdersMatchColumns(table: string, columns: seq<ColumnInfo>)
    requires '?' !in table
    requires forall i :: 0 <= i < |columns| ==> '?' !in columns[i].name
    ensures Count('?', InsertSql(table, columns)) == |columns|
  {
    var names := EscapedNames(columns);
    var marks := Placeholders(|columns|);
    NamesHaveNoMarks(columns);
    JoinAbsent('?', names, ", ");
    EscapeAddsOnlyQuotes('?', table);
    MarksCountOne(|columns|);
    CountJoin('?', marks, ", ");
    CountAround('?', "INSERT INTO " + EscapeColumnName(table) + " (" + Join(names, ", ") + ") VALUES (",
                Join(marks, ", "), ");");
  }

  lemma NamesHaveNoMarks(columns: seq<ColumnInfo>)
    requires forall i :: 0 <= i < |columns| ==> '?' !in columns[i].name
    ensures forall i :: 0 <= i < |EscapedNames(columns)| ==> '?' !in EscapedNames(columns)[i]
  {
    var names := EscapedNames(columns);
    forall i | 0 <= i < |names| ensures '?' !in names[i] {
      EscapeAddsOnlyQuotes('?', columns[i].name);
    }
  }

  lemma MarksCountOne(n: nat)
    ensures forall i :: 0 <= i < |Placeholders(n)| ==> Count('?', Placeholders(n)[i]) == 1
  {
    var marks := Placeholders(n);
    forall i | 0 <= i < |marks| ensures Count('?', marks[i]) == 1 {
      CountOneMark('?', [], []);
      assert marks[i] == [] + ['?'] + [];
    }
  }

  // ---------------------------------------------------------------------
  // Queries (select, selectTopN, getTotalRecordsWithSearch)

  datatype Param = TextParam(s: string) | IntParam(n: int)
  datatype Query = Query(sql: string, params: seq<Param>)

  /** A search applies iff both arrays are present, non-empty and of equal length. */
  predicate HasSearch(fields: Option<seq<string>>, values: Option<seq<string>>)
  {
    fields.Some? && values.Some? && |fields.value| > 0 && |values.value| > 0 &&
    |fields.value| == |values.value|
  }

  function LikeConditions(fields: seq<string>): (conds: seq<string>)
    ensures |conds| == |fields|
  {
    seq(|fields|, i requires 0 <= i < |fields| => EscapeColumnName(fields[i]) + " LIKE ?")
  }

  function WhereClause(fields: seq<string>): string
  {
    Join(LikeConditions(fields), " AND ")
  }

  function SearchParams(values: seq<string>): (ps: seq<Param>)
    ensures |ps| == |values|
  {
    seq(|values|, i requires 0 <= i < |values| => TextParam(values[i]))
  }

  /** The filter part shared by the three queries, and its parameters. */
  function Filter(fields: Option<seq<string>>, values: Option<seq<string>>): string
  {
    if HasSearch(fields, values) then " WHERE " + WhereClause(fields.value) else ""
  }

  function FilterParams(fields: Option<seq<string>>, values: Option<seq<string>>): seq<Param>
  {
    if HasSearch(fields, values) then SearchParams(values.value) else []
  }

  /** Java's `(page - 1) * pageSize` on 32-bit ints. */
  function PageOffset(page: int, pageSize: int): int
  {
    Wrap32(Wrap32(page - 1) * pageSize)
  }

  function SelectQuery(table: string, fields: Option<seq<string>>, values: Option<seq<string>>,
                       page: int, pageSize: int): Query
  {
    Query("SELECT * FROM " + EscapeColumnName(table) + Filter(fields, values) + " LIMIT ? OFFSET ?;",
          FilterParams(fields, values) + [IntParam(pageSize), IntParam(PageOffset(page, pageSize))])
  }

  function TopNQuery(table: string, fields: Option<seq<string>>, values: Option<seq<string>>,
                     limit: int): Query
  {
    Query("SELECT * FROM " + EscapeColumnName(table) + Filter(fields, values) + " LIMIT ?;",
          FilterParams(fields, values) + [IntParam(limit)])
  }

  /** Without a search the count falls back to getTotalRecords' statement. */
  function CountQuery(table: string, fields: Option<seq<string>>, values: Option<seq<string>>): Query
  {
    Query("SELECT COUNT(*) AS total FROM " + EscapeColumnName(table) + Filter(fields, values) + ";",
          FilterParams(fields, values))
  }

  method AppendFilter(sb: string, fields: Option<seq<string>>, values: Option<seq<string>>)
    returns (out: string, params: seq<Param>)
    ensures out == sb + Filter(fields, values)
    ensures params == FilterParams(fields, values)
  {
    out, params := sb, [];
    var hasSearch := fields.Some? && values.Some? && |fields.value| > 0 && |values.value| > 0 &&
                     |fields.value| == |values.value|;
    if hasSearch {
      var conds := seq(|fields.value|, i requires 0 <= i < |fields.value| =>
                         EscapeColumnName(fields.value[i]) + " LIKE ?");
      out := AppendJoined(sb + " WHERE ", conds, " AND ");
      ConcatAssoc(sb, " WHERE ", WhereClause(fields.value));
      params := BindSearchValues(values.value);
    }
  }

  /** The LIKE parameters, one per search value, in order. */
  method BindSearchValues(values: seq<string>) returns (params: seq<Param>)
    ensures params == SearchParams(values)
  {
    params := [];
    var i := 0;
    while i < |values|
      invariant 0 <= i <= |values|
      invariant params == SearchParams(values[..i])
    {
      params := params + [TextParam(values[i])];
      i := i + 1;
    }
    assert values[..i] == values;
  }

  method Select(table: string, fields: Option<seq<string>>, values: Option<seq<string>>,
                page: int, pageSize: int)
    returns (q: Query)
    ensures q == SelectQuery(table, fields, values, page, pageSize)
  {
    var sql, params := AppendFilter("SELECT * FROM " + EscapeColumnName(table), fields, values);
    sql := sql + " LIMIT ? OFFSET ?;";
    params := params + [IntParam(pageSize)];
    params := params + [IntParam(Wrap32(Wrap32(page - 1) * pageSize))];
    q := Query(sql, params);
  }

  method SelectTopN(table: string, fields: Option<seq<string>>, values: Option<seq<string>>, limit: int)
    returns (q: Query)
    ensures q == TopNQuery(table, fields, values, limit)
  {
    var sql, params := AppendFilter("SELECT * FROM " + EscapeColumnName(table), fields, values);
    q := Query(sql + " LIMIT ?;", params + [IntParam(limit)]);
  }

  method TotalRecordsWithSearch(table: string, fields: Option<seq<string>>, values: Option<seq<string>>)
    returns (q: Query)
    ensures q == CountQuery(table, fields, values)
  {
    var sql, params := AppendFilter("SELECT COUNT(*) AS total FROM " + EscapeColumnName(table), fields, values);
    q := Query(sql + ";", params);
  }

  /** A well-formed query: one `?` per parameter. */
  predicate PlaceholdersMatch(q: Query)
  {
    Count('?', q.sql) == |q.params|
  }

  predicate NoMarks(table: string, fields: Option<seq<string>>)
  {
    '?' !in table && (fields.Some? ==> forall i :: 0 <= i < |fields.value| ==> '?' !in fields.value[i])
  }

  lemma FilterMarks(fields: Option<seq<string>>, values: Option<seq<string>>)
    requires fields.Some? ==> forall i :: 0 <= i < |fields.value| ==> '?' !in fields.value[i]
    ensures Count('?', Filter(fields, values)) == |FilterParams(fields, values)|
  {
    if HasSearch(fields, values) {
      var conds := LikeConditions(fields.value);
      forall i | 0 <= i < |conds| ensures Count('?', conds[i]) == 1 {
        var esc := EscapeColumnName(fields.value[i]);
        EscapeAddsOnlyQuotes('?', fields.value[i]);
        assert conds[i] == esc + " LIKE " + ['?'] + [];
        CountOneMark('?', esc + " LIKE ", []);
      }
      CountJoin('?', conds, " AND ");
      CountAfter('?', " WHERE ", WhereClause(fields.value));
    }
  }

  /** `head + table + filter + tail` has the filter's marks plus the tail's. */
  lemma QueryMarks(head: string, table: string, fields: Option<seq<string>>,
                   values: Option<seq<string>>, tail: string)
    requires '?' !in head && '?' !in table
    requires fields.Some? ==> forall i :: 0 <= i < |fields.value| ==> '?' !in fields.value[i]
    ensures Count('?', head + EscapeColumnName(table) + Filter(fields, values) + tail) ==
            |FilterParams(fields, values)| + Count('?', tail)
  {
    var esc := EscapeColumnName(table);
    var filter := Filter(fields, values);
    FilterMarks(fields, values);
    EscapeAddsOnlyQuotes('?', table);
    CountAppend('?', head + esc + filter, tail);
    CountAfter('?', head + esc, filter);
  }

  lemma HeadsHaveNoMarks()
    ensures '?' !in "SELECT * FROM " && '?' !in "SELECT COUNT(*) AS total FROM "
  {
  }

  lemma LimitOffsetMarks()
    ensures Count('?', " LIMIT ? OFFSET ?;") == 2
  {
    assert " LIMIT ? OFFSET ?;" == " LIMIT " + ['?'] + " OFFSET " + ['?'] + ";";
    CountTwoMarks('?', " LIMIT ", " OFFSET ", ";");
  }

  lemma LimitMarks()
    ensures Count('?', " LIMIT ?;") == 1
  {
    assert " LIMIT ?;" == " LIMIT " + ['?'] + ";";
    CountOneMark('?', " LIMIT ", ";");
  }

  /** A query made of a head, the table, the filter and a tail binds one value per `?`. */
  lemma QueryMatches(head: string, table: string, fields: Option<seq<string>>, values: Option<seq<string>>,
                     tail: string, extra: seq<Param>)
    requires '?' !in head && NoMarks(table, fields) && Count('?', tail) == |extra|
    ensures PlaceholdersMatch(Query(head + EscapeColumnName(table) + Filter(fields, values) + tail,
                                    FilterParams(fields, values) + extra))
  {
    QueryMarks(head, table, fields, values, tail);
  }

  /** The paged SELECT binds one value per `?`. */
  lemma SelectHasOnePlaceholderPerParam(table: string, fields: Option<seq<string>>,
                                        values: Option<seq<string>>, page: int, pageSize: int)
    requires NoMarks(table, fields)
    ensures PlaceholdersMatch(SelectQuery(table, fields, values, page, pageSize))
  {
    HeadsHaveNoMarks();
    LimitOffsetMarks();
    QueryMatches("SELECT * FROM ", table, fields, values, " LIMIT ? OFFSET ?;",
                 [IntParam(pageSize), IntParam(PageOffset(page, pageSize))]);
  }

  /** The top-N SELECT binds one value per `?`. */
  lemma TopNHasOnePlaceholderPerParam(table: string, fields: Option<seq<string>>,
                                      values: Option<seq<string>>, limit: int)
    requires NoMarks(table, fields)
    ensures PlaceholdersMatch(TopNQuery(table, fields, values, limit))
  {
    HeadsHaveNoMarks();
    LimitMarks();
    QueryMatches("SELECT * FROM ", table, fields, values, " LIMIT ?;", [IntParam(limit)]);
  }

  /** The COUNT query binds one value per `?`. */
  lemma CountHasOnePlaceholderPerParam(table: string, fields: Option<seq<string>>,
                                       values: Option<seq<string>>)
    requires NoMarks(table, fields)
    ensures PlaceholdersMatch(CountQuery(table, fields, values))
  {
    var params := FilterParams(fields, values);
    assert params + [] == params;
    HeadsHaveNoMarks();
    CountAbsent('?', ";");
    QueryMatches("SELECT COUNT(*) AS total FROM ", table, fields, values, ";", []);
  }
}
