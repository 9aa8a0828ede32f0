/**
 * MainView: the page bookkeeping of the main window (page count, page
 * steps, page jump, the page label and its buttons), the table-name
 * validator used by the import, the row check of "add data", and the state
 * changes of the plain and the advanced (similarity-ranked) search.
 *
 * Dialogs, the table widget and the database are not modelled: what the
 * user typed and what the store answered are parameters, and every reload
 * of the table is returned as the query it issues.
 */
module MainView {
  import opened Strings
  import opened Statements
  import opened Ranking

  /** Records shown per page. */
  const PageSize: int := 35

  /** The number of rows the advanced search fetches before ranking them. */
  const FetchLimit: int := 1000

  // ---------------------------------------------------------------------
  // isValidTableName: ^[A-Za-z_][A-Za-z0-9_]*$

  predicate IsNameStart(c: char) { IsAsciiLetter(c) || c == '_' }

  predicate IsNamePart(c: char) { IsNameStart(c) || IsAsciiDigit(c) }

  /** The `[A-Za-z0-9_]*$` part of the pattern, consumed one character at a time. */
  function MatchRest(s: string): bool
  {
    s == [] || (IsNamePart(s[0]) && MatchRest(s[1..]))
  }

  /** String.matches against the table-name pattern, which must consume the whole name. */
  function IsValidTableName(name: string): bool
  {
    name != [] && IsNameStart(name[0]) && MatchRest(name[1..])
  }

  lemma {:induction false} MatchRestAll(s: string)
    ensures MatchRest(s) <==> forall i :: 0 <= i < |s| ==> IsNamePart(s[i])
  {
    if s != [] {
      MatchRestAll(s[1..]);
      assert forall i :: 1 <= i < |s| ==> s[i] == s[1..][i - 1];
    }
  }

  /**
   * A table name is valid exactly when it is non-empty, starts with an
   * ASCII letter or an underscore, and holds only ASCII letters, digits
   * and underscores.
   */
  lemma ValidTableNameChars(name: string)
    ensures IsValidTableName(name) <==>
      name != [] && IsNameStart(name[0]) && forall i :: 1 <= i < |name| ==> IsNamePart(name[i])
  {
    if name != [] {
      MatchRestAll(name[1..]);
      assert forall i :: 1 <= i < |name| ==> name[i] == name[1..][i - 1];
    }
  }

  /**
   * A valid table name holds no placeholder mark, no double quote and no
   * blank, so trimming leaves it as it is and the queries built on it have
   * one parameter per `?`.
   */
  lemma ValidTableNameIsPlain(name: string)
    requires IsValidTableName(name)
    ensures '?' !in name && '"' !in name && ' ' !in name
    ensures Trim(name) == name
    ensures NoMarks(name, None)
  {
    ValidTableNameChars(name);
    assert forall i :: 0 <= i < |name| ==> IsNamePart(name[i]);
    TrimOfUntrimmed(name);
  }

  // ---------------------------------------------------------------------
  // totalPages = (int) Math.ceil((double) totalRecords / pageSize), at least 1

  /**
   * The number of pages: the least positive count of pages of PageSize
   * that holds every record.
   */
  function PageCount(records: nat): (pages: int)
    ensures pages >= 1
    ensures records <= pages * PageSize
    ensures pages == 1 || (pages - 1) * PageSize < records
  {
    if records == 0 then 1 else (records + PageSize - 1) / PageSize
  }

  /** No smaller positive number of pages holds the records. */
  lemma PageCountIsLeast(records: nat, pages: int)
    requires pages >= 1 && records <= pages * PageSize
    ensures PageCount(records) <= pages
  {
  }

  /**
   * Every page that can be shown starts inside the records: its OFFSET is
   * computed without wrap-around and is below the number of records (when
   * there are any).
   */
  lemma PageStartsInsideRecords(records: nat, page: int)
    requires records <= MaxInt32 && 1 <= page <= PageCount(records)
    ensures PageOffset(page, PageSize) == (page - 1) * PageSize
    ensures records == 0 || PageOffset(page, PageSize) < records
  {
    var n := PageCount(records);
    assert (page - 1) * PageSize <= (n - 1) * PageSize;
    if records == 0 {
      assert page == 1;
    } else if n > 1 {
      assert (n - 1) * PageSize < records;
    }
  }

  // ---------------------------------------------------------------------
  // changePage and updatePageLabel

  /** changePage: the 32-bit sum, kept only when it names an existing page. */
  function StepPage(current: int, total: int, delta: int): int
  {
    var target := Wrap32(current + delta);
    if target < 1 || target > total then current else target
  }

  /**
   * A page step moves exactly when the delta is not zero and the mathematical
   * sum names an existing page; wrap-around never lets a page through.
   */
  lemma StepPageMoves(current: int, total: int, delta: int)
    requires 1 <= current <= total <= MaxInt32 && InInt32(delta)
    ensures var next := StepPage(current, total, delta);
      1 <= next <= total &&
      (next != current <==> delta != 0 && 1 <= current + delta <= total) &&
      (next != current ==> next == current + delta) &&
      (1 <= Wrap32(current + delta) <= total ==> Wrap32(current + delta) == current + delta)
  {
    var n := current + delta;
    if !InInt32(n) {
      var r := Wrap32(n);
      assert n > MaxInt32;
      assert r == n - 0x1_0000_0000 by {
        assert (r - n) % 0x1_0000_0000 == 0;
      }
    }
  }

  datatype PageLabel = PageLabel(text: string, prevEnabled: bool, nextEnabled: bool)

  /** updatePageLabel: "current / total", and the buttons that can move. */
  function Label(current: int, total: int): PageLabel
  {
    PageLabel(IntToString(current) + " / " + IntToString(total), current > 1, current < total)
  }

  /** The previous and next buttons are enabled exactly when the step they trigger moves. */
  lemma LabelButtonsMatchSteps(current: int, total: int)
    requires 1 <= current <= total <= MaxInt32
    ensures Label(current, total).prevEnabled <==> StepPage(current, total, -1) != current
    ensures Label(current, total).nextEnabled <==> StepPage(current, total, 1) != current
  {
    StepPageMoves(current, total, -1);
    StepPageMoves(current, total, 1);
  }

  lemma IntToStringHasNoBlank(n: int)
    ensures var s := IntToString(n);
      s != [] && (forall i :: 0 <= i < |s| ==> !IsTrimmed(s[i])) && NoEdgeBlanks(s)
  {
    var s := IntToString(n);
    if n < 0 {
      assert forall i :: 1 <= i < |s| ==> s[i] == NatToString(-n)[i - 1];
    }
  }

  /** The label text is the two numbers and the slash, joined by single blanks. */
  lemma LabelIsJoin(current: int, total: int)
    ensures Label(current, total).text == Join([IntToString(current), "/", IntToString(total)], " ")
  {
    var a, b := IntToString(current), IntToString(total);
    var parts := [a, "/", b];
    assert parts[..2] == [a, "/"] && [a, "/"][..1] == [a];
    assert Join([a, "/"], " ") == a + " " + "/";
  }

  /** Splitting the label at its blanks gives back the three words it was made of. */
  lemma LabelSplits(current: int, total: int)
    ensures JavaSplit(Label(current, total).text, ' ') == [IntToString(current), "/", IntToString(total)]
  {
    var a, b := IntToString(current), IntToString(total);
    IntToStringHasNoBlank(current);
    IntToStringHasNoBlank(total);
    LabelIsJoin(current, total);
    var parts := [a, "/", b];
    assert forall i :: 0 <= i < |parts| ==> ' ' !in parts[i] by {
      assert forall i :: 0 <= i < |a| ==> a[i] != ' ';
      assert forall i :: 0 <= i < |b| ==> b[i] != ' ';
    }
    JavaSplitJoin(parts, ' ');
  }

  /** The label text reads back, split at its blanks, as the two page numbers. */
  lemma LabelReadsBack(current: int, total: int)
    requires InInt32(current) && InInt32(total)
    ensures var parts := JavaSplit(Label(current, total).text, ' ');
      |parts| == 3 && parts[1] == "/" &&
      ParseInt(parts[0]) == Some(current) && ParseInt(parts[2]) == Some(total)
  {
    LabelSplits(current, total);
    ParseIntOfIntToString(current);
    ParseIntOfIntToString(total);
  }

  // ---------------------------------------------------------------------
  // showPageJumpDialog

  datatype JumpOutcome = Cancelled | NotANumber | OutOfRange | AlreadyThere | Jumped(page: int)

  /** What the page-jump dialog does with the text typed (None: the dialog was cancelled). */
  function JumpTarget(input: Option<string>, current: int, total: int): (r: JumpOutcome)
    ensures r == Cancelled <==> input == None
    ensures r.Jumped? ==> 1 <= r.page <= total && r.page != current
  {
    if input == None then Cancelled
    else
      match ParseInt(Trim(input.value))
      case None => NotANumber
      case Some(p) =>
        if p < 1 || p > total then OutOfRange
        else if p == current then AlreadyThere
        else Jumped(p)
  }

  /** Typing any other existing page number, with blanks around it or not, jumps to it. */
  lemma JumpToTypedPage(current: int, total: int, page: int, pad1: string, pad2: string)
    requires 1 <= page <= total <= MaxInt32 && page != current
    requires forall i :: 0 <= i < |pad1| ==> IsTrimmed(pad1[i])
    requires forall i :: 0 <= i < |pad2| ==> IsTrimmed(pad2[i])
    ensures JumpTarget(Some(pad1 + IntToString(page) + pad2), current, total) == Jumped(page)
  {
    var s := IntToString(page);
    IntToStringHasNoBlank(page);
    TrimPadded(pad1, s, pad2);
    ParseIntOfIntToString(page);
  }

  /** Page 12 typed in fullwidth digits, as a CJK input method gives them, is jumped to. */
  lemma JumpToFullwidthPage(current: int, total: int)
    requires 12 <= total && current != 12
    ensures JumpTarget(Some("\U{FF11}\U{FF12}"), current, total) == Jumped(12)
  {
    var s := "\U{FF11}\U{FF12}";
    assert !IsTrimmed(s[0]) && !IsTrimmed(s[1]);
    assert Trim(s) == s by { TrimPadded([], s, []); }
    ParseIntReadsFullwidth();
  }

  lemma TrimPadded(pad1: string, s: string, pad2: string)
    requires s != [] && NoEdgeBlanks(s)
    requires forall i :: 0 <= i < |pad1| ==> IsTrimmed(pad1[i])
    requires forall i :: 0 <= i < |pad2| ==> IsTrimmed(pad2[i])
    ensures Trim(pad1 + s + pad2) == s
  {
    var t := pad1 + s + pad2;
    var lo, hi := TrimShape(t);
    var a, b := |pad1|, |pad1| + |s|;
    assert t[a] == s[0] && t[b - 1] == s[|s| - 1];
    assert forall i :: a <= i < b ==> t[i] == s[i - a];
    assert lo == a && hi == b;
    assert t[a..b] == s;
  }

  // ---------------------------------------------------------------------
  // addData: the typed row

  datatype AddOutcome = NoTable | NoColumns | EmptyInput | CountMismatch | InsertRow(values: seq<string>)

  function TrimAll(parts: seq<string>): (r: seq<string>)
    ensures |r| == |parts|
  {
    seq(|parts|, i requires 0 <= i < |parts| => Trim(parts[i]))
  }

  /**
   * addData's checks in order: a table must be open, it must have columns,
   * the input must not be blank, and the comma-split input must have one
   * part per column; the parts are trimmed before the insert.
   */
  function AddDataOutcome(tableOpen: bool, columnNames: seq<string>, input: Option<string>): AddOutcome
  {
    if !tableOpen then NoTable
    else if columnNames == [] then NoColumns
    else if input == None || Trim(input.value) == "" then EmptyInput
    else
      var parts := JavaSplit(input.value, ',');
      if |parts| != |columnNames| then CountMismatch
      else InsertRow(TrimAll(parts))
  }

  /** The input read for addData: the loop trims the split parts in place. */
  method AddData(tableOpen: bool, columnNames: seq<string>, input: Option<string>)
    returns (outcome: AddOutcome)
    ensures outcome == AddDataOutcome(tableOpen, columnNames, input)
  {
    if !tableOpen {
      return NoTable;
    }
    if columnNames == [] {
      return NoColumns;
    }
    if input == None || Trim(input.value) == "" {
      return EmptyInput;
    }
    var parts := JavaSplit(input.value, ',');
    if |parts| != |columnNames| {
      return CountMismatch;
    }
    var values := TrimParts(parts);
    outcome := InsertRow(values);
  }

  /** The loop that trims each split part in place. */
  method TrimParts(parts: seq<string>) returns (values: seq<string>)
    ensures values == TrimAll(parts)
  {
    var a := new string[|parts|](i requires 0 <= i < |parts| => parts[i]);
    for i := 0 to a.Length
      invariant a.Length == |parts|
      invariant forall k :: 0 <= k < i ==> a[k] == Trim(parts[k])
      invariant forall k :: i <= k < a.Length ==> a[k] == parts[k]
    {
      a[i] := Trim(a[i]);
    }
    values := a[..];
  }

  /** An inserted row has one value per column, each without a comma or edge blanks. */
  lemma InsertedRowShape(tableOpen: bool, columnNames: seq<string>, input: Option<string>)
    requires AddDataOutcome(tableOpen, columnNames, input).InsertRow?
    ensures var values := AddDataOutcome(tableOpen, columnNames, input).values;
      |values| == |columnNames| > 0 &&
      forall i :: 0 <= i < |values| ==> ',' !in values[i] && NoEdgeBlanks(values[i])
  {
    var parts := JavaSplit(input.value, ',');
    forall i | 0 <= i < |parts|
      ensures ',' !in Trim(parts[i]) && NoEdgeBlanks(Trim(parts[i]))
    {
      var lo, hi := TrimShape(parts[i]);
      assert forall k :: 0 <= k < hi - lo ==> Trim(parts[i])[k] == parts[i][lo + k];
    }
  }

  /**
   * A row typed as its values joined by commas is inserted as those
   * values, provided none holds a comma or edge blanks and the last is not
   * empty.
   */
  lemma AddDataRoundTrip(columnNames: seq<string>, values: seq<string>)
    requires |values| == |columnNames| > 0 && values[|values| - 1] != ""
    requires forall i :: 0 <= i < |values| ==> ',' !in values[i] && NoEdgeBlanks(values[i])
    ensures AddDataOutcome(true, columnNames, Some(Join(values, ","))) == InsertRow(values)
  {
    var input := Join(values, ",");
    JavaSplitJoin(values, ',');
    var last := values[|values| - 1];
    if |values| == 1 {
      TrimNotEmpty(input, 0);
    } else {
      var init := Join(values[..|values| - 1], ",");
      assert input == init + "," + last;
      TrimNotEmpty(input, |init|);
    }
    forall i | 0 <= i < |values| ensures Trim(values[i]) == values[i] {
      TrimOfUntrimmed(values[i]);
    }
    assert TrimAll(values) == values;
  }

  /**
   * split drops trailing empty strings, so a row whose last value is left
   * empty is one value short: "a,b," for three columns is a count mismatch.
   */
  lemma TrailingEmptyValueIsDropped()
    ensures JavaSplit("a,b,", ',') == ["a", "b"]
    ensures AddDataOutcome(true, ["x", "y", "z"], Some("a,b,")) == CountMismatch
  {
    var s := "a,b,";
    assert s == "a" + [','] + "b," && "b," == "b" + [','] + "";
    SplitAllPrefix("a", ',', "b,");
    SplitAllPrefix("b", ',', "");
    assert SplitAll(s, ',') == ["a", "b", ""];
    assert s[1] == ',';
    assert ["a", "b", ""][..2] == ["a", "b"];
    assert !IsTrimmed(s[0]);
    TrimNotEmpty(s, 0);
  }

  // ---------------------------------------------------------------------
  // The advanced search: which fetched results get ranked

  datatype Gate = NoRecords | FieldMissing | Failed | Rank(field: nat, keyword: string)

  /**
   * executeAdvancedSearch before the ranking: no columns or no rows end
   * it, an empty field array or value array fails on its first element, an
   * unknown field ends it, and a row without the field fails the scoring.
   */
  function AdvancedGate(fields: seq<string>, values: seq<string>, columnNames: seq<string>,
                        dataRows: seq<seq<string>>): (g: Gate)
    ensures g.Rank? <==>
      columnNames != [] && dataRows != [] && fields != [] && fields[0] in columnNames &&
      values != [] && HasField(dataRows, IndexOf(columnNames, fields[0]))
    ensures g.Rank? ==>
      g.field < |columnNames| && columnNames[g.field] == fields[0] && fields[0] !in columnNames[..g.field] &&
      HasField(dataRows, g.field) && '%' !in g.keyword
    ensures g == FieldMissing <==>
      columnNames != [] && dataRows != [] && fields != [] && fields[0] !in columnNames
  {
    if columnNames == [] || dataRows == [] then NoRecords
    else if fields == [] then Failed
    else
      var index := IndexOf(columnNames, fields[0]);
      if index == -1 then FieldMissing
      else if values == [] then Failed
      else if !HasField(dataRows, index) then Failed
      else Rank(index, SearchKeyword(values[0]))
  }

  // ---------------------------------------------------------------------
  // The window's page and search state

  class ViewState {
    var currentTable: Option<string>
    var currentPage: int
    var totalPages: int
    var totalRecords: int
    var searchFields: Option<seq<string>>
    var searchValues: Option<seq<string>>

    /**
     * The current page is an existing page, and the page count is the one
     * the record count gives, or 1 after an advanced search.
     */
    predicate Valid()
      reads this
    {
      1 <= currentPage <= totalPages <= MaxInt32 && 0 <= totalRecords <= MaxInt32 &&
      (totalPages == PageCount(totalRecords) || totalPages == 1)
    }

    /** updateTable: the query that reloads the current page, in search mode or not. */
    function PageQuery(): Option<Query>
      reads this
    {
      if currentTable == None then None
      else Some(SelectQuery(currentTable.value, searchFields, searchValues, currentPage, PageSize))
    }

    constructor()
      ensures Valid()
      ensures currentTable == None && currentPage == 1 && totalPages == 1 && totalRecords == 0
      ensures searchFields == None && searchValues == None
    {
      currentTable := None;
      currentPage, totalPages, totalRecords := 1, 1, 0;
      searchFields, searchValues := None, None;
    }

    /**
     * loadTableData as written: the first page is reloaded before the
     * search is reset, so in search mode it is fetched with the previous
     * search applied to the newly chosen table.
     */
    method LoadTable(table: string, records: nat) returns (reload: Option<Query>)
      requires records <= MaxInt32
      modifies this
      ensures Valid()
      ensures currentTable == Some(table) && currentPage == 1
      ensures totalRecords == records && totalPages == PageCount(records)
      ensures searchFields == None && searchValues == None
      ensures reload == Some(SelectQuery(table, old(searchFields), old(searchValues), 1, PageSize))
    {
      currentTable := Some(table);
      currentPage := 1;
      totalRecords := records;
      totalPages := PageCount(records);
      reload := PageQuery();
      searchFields, searchValues := None, None;
    }

    /**
     * loadTableData with the search reset before the reload: the first page
     * of the new table, unfiltered, as its record count and page count say.
     */
    method LoadTableUnfiltered(table: string, records: nat) returns (reload: Option<Query>)
      requires records <= MaxInt32
      modifies this
      ensures Valid()
      ensures currentTable == Some(table) && currentPage == 1
      ensures totalRecords == records && totalPages == PageCount(records)
      ensures searchFields == None && searchValues == None
      ensures reload == Some(SelectQuery(table, None, None, 1, PageSize))
    {
      currentTable := Some(table);
      currentPage := 1;
      totalRecords := records;
      totalPages := PageCount(records);
      searchFields, searchValues := None, None;
      reload := PageQuery();
    }

    /**
     * The refresh after an import into the table on show: back to page 1
     * with the new record count, the search left as it was.
     */
    method RefreshAfterImport(records: nat) returns (reload: Option<Query>)
      requires records <= MaxInt32
      modifies this
      ensures Valid()
      ensures currentPage == 1 && totalRecords == records && totalPages == PageCount(records)
      ensures currentTable == old(currentTable)
      ensures searchFields == old(searchFields) && searchValues == old(searchValues)
      ensures reload == PageQuery()
    {
      currentPage := 1;
      totalRecords := records;
      totalPages := PageCount(records);
      reload := PageQuery();
    }

    /**
     * What the window does once an import has finished: the table list is
     * rebuilt from `tableNames` and its first entry selected, which loads
     * that table (as LoadTable does, search cleared); only then is the
     * imported name compared with the table on show, and the refresh runs
     * when they agree. `records` is the count the database reports for the
     * table that ends up on show. The reloads are returned in order.
     */
    method ImportDone(tableNames: seq<string>, imported: string, records: nat) returns (reloads: seq<Query>)
      requires Valid() && records <= MaxInt32
      modifies this
      ensures Valid()
      ensures tableNames != [] ==>
        currentTable == Some(tableNames[0]) && currentPage == 1 &&
        totalRecords == records && totalPages == PageCount(records) &&
        searchFields == None && searchValues == None
      ensures tableNames != [] && imported != tableNames[0] ==>
        reloads == [SelectQuery(tableNames[0], old(searchFields), old(searchValues), 1, PageSize)]
      ensures tableNames != [] && imported == tableNames[0] ==>
        reloads == [SelectQuery(imported, old(searchFields), old(searchValues), 1, PageSize),
                    SelectQuery(imported, None, None, 1, PageSize)]
      ensures tableNames == [] && old(currentTable) == Some(imported) ==>
        currentTable == old(currentTable) && currentPage == 1 &&
        totalRecords == records && totalPages == PageCount(records) &&
        searchFields == old(searchFields) && searchValues == old(searchValues) &&
        reloads == [SelectQuery(imported, searchFields, searchValues, 1, PageSize)]
      ensures tableNames == [] && old(currentTable) != Some(imported) ==>
        unchanged(this) && reloads == []
    {
      reloads := [];
      if tableNames != [] {
        var first := LoadTable(tableNames[0], records);
        reloads := reloads + [first.value];
      }
      if currentTable == Some(imported) {
        var refresh := RefreshAfterImport(records);
        reloads := reloads + [refresh.value];
      }
    }

    /** changePage: a step within the existing pages, reloading only when it moves. */
    method ChangePage(delta: int) returns (reload: Option<Query>)
      requires Valid() && InInt32(delta)
      modifies this
      ensures Valid()
      ensures currentPage == StepPage(old(currentPage), totalPages, delta)
      ensures reload == if delta == 0 || currentPage != old(currentPage) then PageQuery() else None
      ensures currentTable == old(currentTable) && totalPages == old(totalPages) && totalRecords == old(totalRecords)
      ensures searchFields == old(searchFields) && searchValues == old(searchValues)
    {
      StepPageMoves(currentPage, totalPages, delta);
      var newPage := Wrap32(currentPage + delta);
      if newPage < 1 || newPage > totalPages {
        assert delta != 0;
        return None;
      }
      currentPage := newPage;
      reload := PageQuery();
    }

    /** showPageJumpDialog: only another existing page is jumped to. */
    method PageJump(input: Option<string>) returns (outcome: JumpOutcome, reload: Option<Query>)
      requires Valid()
      modifies this
      ensures Valid()
      ensures outcome == JumpTarget(input, old(currentPage), totalPages)
      ensures currentPage == if outcome.Jumped? then outcome.page else old(currentPage)
      ensures reload == if outcome.Jumped? then PageQuery() else None
      ensures currentTable == old(currentTable) && totalPages == old(totalPages) && totalRecords == old(totalRecords)
      ensures searchFields == old(searchFields) && searchValues == old(searchValues)
    {
      reload := None;
      if input == None {
        return Cancelled, None;
      }
      var parsed := ParseInt(Trim(input.value));
      if parsed == None {
        return NotANumber, None;
      }
      var target := parsed.value;
      if target < 1 || target > totalPages {
        outcome := OutOfRange;
      } else if target == currentPage {
        outcome := AlreadyThere;
      } else {
        currentPage := target;
        outcome := Jumped(target);
        reload := PageQuery();
      }
    }

    /**
     * performSearch: the first page of matches is fetched; when that fails
     * nothing changes. Otherwise the page goes back to 1 before the count
     * is asked for; when the count fails the rest stays as it was, and
     * when it succeeds the paging follows the count and search mode is on.
     */
    method PerformSearch(fields: seq<string>, values: seq<string>, selectFails: bool, count: Option<nat>)
      returns (select: Query, countQuery: Option<Query>)
      requires Valid() && currentTable.Some?
      requires count.Some? ==> count.value <= MaxInt32
      modifies this
      ensures Valid()
      ensures currentTable == old(currentTable)
      ensures select == SelectQuery(currentTable.value, Some(fields), Some(values), 1, PageSize)
      ensures selectFails ==>
        countQuery == None && currentPage == old(currentPage) &&
        totalPages == old(totalPages) && totalRecords == old(totalRecords) &&
        searchFields == old(searchFields) && searchValues == old(searchValues)
      ensures !selectFails ==>
        countQuery == Some(CountQuery(currentTable.value, Some(fields), Some(values))) && currentPage == 1
      ensures !selectFails && count == None ==>
        totalPages == old(totalPages) && totalRecords == old(totalRecords) &&
        searchFields == old(searchFields) && searchValues == old(searchValues)
      ensures !selectFails && count.Some? ==>
        totalRecords == count.value && totalPages == PageCount(count.value) &&
        searchFields == Some(fields) && searchValues == Some(values)
    {
      var table := currentTable.value;
      select := Statements.Select(table, Some(fields), Some(values), 1, PageSize);
      if selectFails {
        return select, None;
      }
      currentPage := 1;
      var q := TotalRecordsWithSearch(table, Some(fields), Some(values));
      countQuery := Some(q);
      if count == None {
        return;
      }
      totalRecords := count.value;
      totalPages := PageCount(totalRecords);
      searchFields, searchValues := Some(fields), Some(values);
    }

    /**
     * The refresh after addData inserted a row: in search mode the search
     * is run again, otherwise the current page is reloaded.
     */
    method RefreshAfterInsert(selectFails: bool, count: Option<nat>)
      returns (reload: Option<Query>, countQuery: Option<Query>)
      requires Valid() && currentTable.Some?
      requires count.Some? ==> count.value <= MaxInt32
      modifies this
      ensures Valid()
      ensures currentTable == old(currentTable)
      ensures old(searchFields) == None || old(searchValues) == None ==>
        reload == old(PageQuery()) && countQuery == None &&
        currentPage == old(currentPage) && totalPages == old(totalPages) && totalRecords == old(totalRecords) &&
        searchFields == old(searchFields) && searchValues == old(searchValues)
      ensures old(searchFields).Some? && old(searchValues).Some? ==>
        reload == Some(SelectQuery(currentTable.value, old(searchFields), old(searchValues), 1, PageSize)) &&
        searchFields == old(searchFields) && searchValues == old(searchValues) &&
        (selectFails ==> countQuery == None && currentPage == old(currentPage)) &&
        (!selectFails ==> countQuery == Some(CountQuery(currentTable.value, old(searchFields), old(searchValues))) &&
                          currentPage == 1) &&
        (selectFails || count == None ==> totalPages == old(totalPages) && totalRecords == old(totalRecords)) &&
        (!selectFails && count.Some? ==> totalRecords == count.value && totalPages == PageCount(count.value))
    {
      if searchFields.Some? && searchValues.Some? {
        var select;
        select, countQuery := PerformSearch(searchFields.value, searchValues.value, selectFails, count);
        reload := Some(select);
      } else {
        reload := PageQuery();
        countQuery := None;
      }
    }

    /**
     * executeAdvancedSearch: fetch at most FetchLimit matching rows, then,
     * when the field and the rows allow it, show the TopK best-scored rows
     * on a single page and enter search mode; in every other case the
     * state is left as it was.
     */
    method ExecuteAdvancedSearch(fields: seq<string>, values: seq<string>, columnNames: seq<string>,
                                 dataRows: seq<seq<string>>, similarity: (string, string) -> real)
      returns (query: Query, gate: Gate, top: seq<RankedRow>, ghost order: seq<nat>)
      requires Valid() && currentTable.Some?
      modifies this
      ensures Valid()
      ensures currentTable == old(currentTable)
      ensures query == TopNQuery(currentTable.value, Some(fields), Some(values), FetchLimit)
      ensures gate == AdvancedGate(fields, values, columnNames, dataRows)
      ensures gate.Rank? ==>
        IsTopRanking(dataRows, gate.field, gate.keyword, similarity, top, order) &&
        currentPage == 1 && totalPages == 1 && totalRecords == |top| &&
        searchFields == Some(fields) && searchValues == Some(values)
      ensures !gate.Rank? ==>
        top == [] && currentPage == old(currentPage) &&
        totalPages == old(totalPages) && totalRecords == old(totalRecords) &&
        searchFields == old(searchFields) && searchValues == old(searchValues)
    {
      query := SelectTopN(currentTable.value, Some(fields), Some(values), FetchLimit);
      gate := AdvancedGate(fields, values, columnNames, dataRows);
      top, order := [], [];
      if !gate.Rank? {
        return;
      }
      top, order := TopRanked(dataRows, gate.field, gate.keyword, similarity);
      currentPage := 1;
      totalRecords := |top|;
      totalPages := 1;
      searchFields, searchValues := Some(fields), Some(values);
    }
  }

  /**
   * The stale reload of loadTableData: with a search in force, the first
   * page fetched for the new table is not its unfiltered first page, since
   * it carries one LIKE parameter per searched field.
   */
  lemma StaleSearchFiltersNewTable(table: string, fields: seq<string>, values: seq<string>)
    requires HasSearch(Some(fields), Some(values))
    ensures SelectQuery(table, Some(fields), Some(values), 1, PageSize) != SelectQuery(table, None, None, 1, PageSize)
    ensures |SelectQuery(table, Some(fields), Some(values), 1, PageSize).params| == |values| + 2
  {
    assert |SelectQuery(table, None, None, 1, PageSize).params| == 2;
  }

  /**
   * The unfiltered first page is the first PageSize records: LIMIT PageSize
   * OFFSET 0, and no other parameter.
   */
  lemma FirstPageIsUnfiltered(table: string)
    ensures SelectQuery(table, None, None, 1, PageSize).params == [IntParam(PageSize), IntParam(0)]
  {
  }

  /**
   * The ultra-find dialog searches one column for `%keyword%`: when the
   * column is among the fetched columns and every row has it, the ranking
   * scores against the keyword in lower case.
   */
  lemma UltraFindKeyword(column: string, keyword: string, columnNames: seq<string>, dataRows: seq<seq<string>>)
    requires '%' !in keyword && column in columnNames && dataRows != []
    requires HasField(dataRows, IndexOf(columnNames, column))
    ensures AdvancedGate([column], ["%" + keyword + "%"], columnNames, dataRows) ==
      Rank(IndexOf(columnNames, column), ToLower(keyword))
  {
    KeywordOfPattern(keyword);
  }
}
