/**
 * TSVImporter.importTSV: the single pass over a TSV file that samples the
 * first rows, creates the table from them and then inserts the rest in
 * batches, reporting progress after every batch.
 *
 * The file is given as the outcome of parsing each of its lines; the
 * operator and the progress callback are observed through the calls the
 * import makes on them, and the two answers the operator can give that
 * change the course of the import (whether createTable succeeds, which
 * batchInsert throws) are parameters.
 */
module Importer {
  import opened Strings
  import opened Coercion
  import opened Inference

  const BatchSize: nat := 1000
  const SampleSize: nat := 1000

  /** What parseLine makes of one line: its fields, or an IOException. */
  datatype ParsedLine = Parsed(fields: seq<string>) | Malformed

  /** A call importTSV makes on the operator or on the progress callback. */
  datatype Call =
    | CreateTable(table: string, headers: seq<string>, types: seq<string>)
    | BatchInsert(table: string, rows: seq<seq<string>>)
    | Progress(total: int, processed: int)

  /** How importTSV ends: normally, or by one of the exceptions it lets through. */
  datatype Outcome = Completed | HeaderUnreadable | CreateFailed | InsertFailed

  datatype Run = Run(outcome: Outcome, calls: seq<Call>)

  // ---------------------------------------------------------------------
  // The rows of a file

  function RowOf(line: ParsedLine): seq<seq<string>>
  {
    if line.Parsed? then [line.fields] else []
  }

  /** The fields of the lines parseLine accepts, in file order; a rejected line is skipped. */
  function Rows(lines: seq<ParsedLine>): seq<seq<string>>
  {
    if lines == [] then [] else Rows(lines[..|lines| - 1]) + RowOf(lines[|lines| - 1])
  }

  /** The lines after the header line, if the file has one. */
  function Body(lines: seq<ParsedLine>, hasHeader: bool): seq<ParsedLine>
  {
    if hasHeader && lines != [] then lines[1..] else lines
  }

  function DataRows(lines: seq<ParsedLine>, hasHeader: bool): seq<seq<string>>
  {
    Rows(Body(lines, hasHeader))
  }

  /** countTotalRecords minus the header line: every line counts, even one that fails to parse. */
  function TotalRecords(lines: seq<ParsedLine>, hasHeader: bool): int
  {
    |lines| - (if hasHeader then 1 else 0)
  }

  /** The header line could not be parsed: importTSV lets the IOException through. */
  predicate HeaderUnparsable(lines: seq<ParsedLine>, hasHeader: bool)
  {
    hasHeader && lines != [] && lines[0].Malformed?
  }

  /**
   * The names the table is created with: the header line, processed once
   * when it is read and once more at creation, or column_1, column_2, ...
   * for `width` columns, processed at creation.
   */
  function TableHeaders(lines: seq<ParsedLine>, hasHeader: bool, width: nat): seq<string>
  {
    if hasHeader && lines != [] && lines[0].Parsed? then
      ProcessedHeaders(ProcessedHeaders(lines[0].fields))
    else
      ProcessedHeaders(DefaultHeaders(width))
  }

  // ---------------------------------------------------------------------
  // The calls of an import

  /**
   * The batches in which `rows` are inserted, each followed by its progress
   * report; `done` rows were reported before the first of them.
   */
  function BatchCalls(table: string, rows: seq<seq<string>>, total: int, done: int): seq<Call>
    decreases |rows|
  {
    if rows == [] then []
    else
      var k := Min(|rows|, BatchSize);
      [BatchInsert(table, rows[..k]), Progress(total, done + k)]
        + BatchCalls(table, rows[k..], total, done + k)
  }

  /**
   * The calls of the block that creates the table: createTable with the
   * types inferred from the samples, then the samples' batchInsert and the
   * report that counts them.
   */
  function CreationCalls(table: string, names: seq<string>, samples: seq<seq<string>>,
                         isDouble: DoubleSyntax, total: int, processed: int): seq<Call>
  {
    [CreateTable(table, names, ColumnTypes(samples, |names|, isDouble)),
     BatchInsert(table, samples),
     Progress(total, processed + |samples|)]
  }

  /**
   * The first three calls of a file with more than SampleSize rows: the
   * table is created when row SampleSize + 1 arrives, with as many default
   * names as that row has fields, and the samples are inserted.
   */
  function HeadCalls(table: string, lines: seq<ParsedLine>, hasHeader: bool, isDouble: DoubleSyntax,
                     rows: seq<seq<string>>): (calls: seq<Call>)
    requires |rows| > SampleSize
    ensures |calls| == 3
  {
    CreationCalls(table, TableHeaders(lines, hasHeader, |rows[SampleSize]|), rows[..SampleSize], isDouble,
                  TotalRecords(lines, hasHeader), 0)
  }

  /**
   * The rows that go into batches once the table exists: the row that
   * triggered the creation, then every row after the next SampleSize ones,
   * which refill the cleared sample list and are never inserted.
   */
  function Committed(rows: seq<seq<string>>): seq<seq<string>>
    requires |rows| > SampleSize
  {
    [rows[SampleSize]] + rows[Min(|rows|, 2 * SampleSize + 1)..]
  }

  /** Every call importTSV makes when neither the operator nor the header line fails. */
  function ImportCalls(table: string, lines: seq<ParsedLine>, hasHeader: bool, isDouble: DoubleSyntax)
    : seq<Call>
  {
    var d := DataRows(lines, hasHeader);
    if d == [] then []
    else if |d| <= SampleSize then
      CreationCalls(table, TableHeaders(lines, hasHeader, |d[0]|), d, isDouble, TotalRecords(lines, hasHeader), 0)
    else
      HeadCalls(table, lines, hasHeader, isDouble, d)
        + BatchCalls(table, Committed(d), TotalRecords(lines, hasHeader), SampleSize)
  }

  /**
   * The whole run: `createSucceeds` is createTable's answer, and
   * `failingInsert`, if any, numbers the batchInsert call (from 0) that
   * throws. Calls stop at the failing one.
   */
  function Import(table: string, lines: seq<ParsedLine>, hasHeader: bool, isDouble: DoubleSyntax,
                  createSucceeds: bool, failingInsert: Option<nat>): Run
  {
    if HeaderUnparsable(lines, hasHeader) then Run(HeaderUnreadable, [])
    else
      var calls := ImportCalls(table, lines, hasHeader, isDouble);
      if calls == [] then Run(Completed, [])
      else if !createSucceeds then Run(CreateFailed, calls[..1])
      else if failingInsert.Some? && 2 * failingInsert.value + 1 < |calls| then
        Run(InsertFailed, calls[..2 * failingInsert.value + 2])
      else Run(Completed, calls)
  }

  // ---------------------------------------------------------------------
  // importTSV

  /**
   * The block importTSV has twice to create the table: name the columns
   * (the given header or default names, processed), infer their types from
   * the samples, createTable, then insert the samples and report them.
   * `insertFails` says whether that batchInsert throws; a failure ends the
   * calls and is returned.
   */
  method CreateWithSamples(table: string, headers: Option<seq<string>>, width: nat,
                           samples: seq<seq<string>>, isDouble: DoubleSyntax, total: int, processed: int,
                           createSucceeds: bool, insertFails: bool)
    returns (failure: Option<Outcome>, calls: seq<Call>)
    ensures failure == (if !createSucceeds then Some(CreateFailed)
                        else if insertFails then Some(InsertFailed) else None)
    ensures calls == CreationCalls(table, ProcessedHeaders(if headers.Some? then headers.value
                                                          else DefaultHeaders(width)),
                                   samples, isDouble, total, processed)
                     [..if !createSucceeds then 1 else if insertFails then 2 else 3]
  {
    var a: array<string>;
    if headers.None? {
      a := GenerateDefaultHeaders(width);
    } else {
      var h := headers.value;
      a := new string[|h|](j requires 0 <= j < |h| => h[j]);
      assert a[..] == h;
    }
    ProcessHeaders(a);
    var types := InferColumnTypes(samples, a.Length, isDouble);
    calls := [CreateTable(table, a[..], types[..])];
    if !createSucceeds {
      return Some(CreateFailed), calls;
    }
    calls := calls + [BatchInsert(table, samples)];
    if insertFails {
      return Some(InsertFailed), calls;
    }
    calls := calls + [Progress(total, processed + |samples|)];
    failure := None;
  }

  /**
   * The state of importTSV's loop after the data rows `seen`: until the
   * table exists every row is a sample; afterwards the calls are `head`
   * (those of the creation block) followed by every full batch of the
   * committed rows, and `batch` holds the rest of them.
   */
  ghost predicate LoopState(table: string, total: int, seen: seq<seq<string>>, tableCreated: bool,
                            samples: seq<seq<string>>, batch: seq<seq<string>>, processed: int,
                            inserts: nat, head: seq<Call>, calls: seq<Call>)
  {
    if |seen| <= SampleSize then
      !tableCreated && samples == seen && batch == [] && processed == 0 && inserts == 0 && calls == []
    else
      var b := Committed(seen);
      var f := (inserts - 1) * BatchSize;
      tableCreated && inserts >= 1 && f <= |b| < f + BatchSize &&
      samples == seen[SampleSize + 1..Min(|seen|, 2 * SampleSize + 1)] &&
      batch == b[f..] && processed == SampleSize + |b| &&
      calls == head + BatchCalls(table, b[..f], total, SampleSize)
  }

  /**
   * What importTSV knows after reading the first `i` lines: the header (if
   * any) was parsed and processed, `seen` are the data rows read so far, and
   * the import state is the one LoopState describes for them.
   */
  ghost predicate Reading(table: string, lines: seq<ParsedLine>, hasHeader: bool, isDouble: DoubleSyntax,
                          createSucceeds: bool, failingInsert: Option<nat>, i: int,
                          headers: Option<seq<string>>, tableCreated: bool, samples: seq<seq<string>>,
                          batch: seq<seq<string>>, processed: int, inserts: nat, seen: seq<seq<string>>,
                          head: seq<Call>, calls: seq<Call>)
  {
    0 <= i <= |lines| &&
    (hasHeader && i > 0 ==> lines[0].Parsed?) &&
    (!tableCreated ==>
       headers == (if hasHeader && i > 0 then Some(ProcessedHeaders(lines[0].fields)) else None)) &&
    seen == DataRows(lines[..i], hasHeader) && |seen| <= |DataRows(lines, hasHeader)| &&
    (|seen| > SampleSize ==> head == HeadCalls(table, lines, hasHeader, isDouble, DataRows(lines, hasHeader))) &&
    (tableCreated ==> createSucceeds) &&
    (failingInsert.None? || inserts <= failingInsert.value) &&
    LoopState(table, TotalRecords(lines, hasHeader), seen, tableCreated, samples, batch, processed, inserts,
              head, calls)
  }

  method ImportTsv(table: string, lines: seq<ParsedLine>, hasHeader: bool, isDouble: DoubleSyntax,
                   createSucceeds: bool, failingInsert: Option<nat>)
    returns (outcome: Outcome, calls: seq<Call>)
    ensures Run(outcome, calls) == Import(table, lines, hasHeader, isDouble, createSucceeds, failingInsert)
  {
    calls := [];
    var batch: seq<seq<string>> := [];
    var processed := 0;
    var total := |lines| - (if hasHeader then 1 else 0);
    var isFirstLine := true;
    var headers: Option<seq<string>> := None;
    var samples: seq<seq<string>> := [];
    var tableCreated := false;
    var inserts: nat := 0;
    ghost var seen: seq<seq<string>> := [];
    ghost var head: seq<Call> := [];
    var i := 0;
    assert lines[..0] == [];
    while i < |lines|
      invariant isFirstLine <==> i == 0
      invariant Reading(table, lines, hasHeader, isDouble, createSucceeds, failingInsert, i, headers,
                        tableCreated, samples, batch, processed, inserts, seen, head, calls)
    {
      var stop;
      stop, headers, tableCreated, samples, batch, processed, inserts, seen, head, calls :=
        ReadLine(table, lines, hasHeader, isDouble, createSucceeds, failingInsert, total, i, isFirstLine,
                 headers, tableCreated, samples, batch, processed, inserts, seen, head, calls);
      if stop.Some? {
        return stop.value, calls;
      }
      isFirstLine := false;
      i := i + 1;
    }
    ReadAll(table, lines, hasHeader, isDouble, createSucceeds, failingInsert, headers, tableCreated, samples,
            batch, processed, inserts, seen, head, calls);
    outcome, calls := FinishImport(table, lines, hasHeader, isDouble, createSucceeds, failingInsert,
                                   headers, tableCreated, samples, batch, processed, inserts, head, calls);
  }

  /**
   * One pass of importTSV's read loop over line `i`: the header line is
   * processed into the column names (or, unparsable, ends the import), a
   * malformed line is skipped, and a data row is accepted. `stop` is set
   * when the import ends here.
   */
  method ReadLine(table: string, lines: seq<ParsedLine>, hasHeader: bool, isDouble: DoubleSyntax,
                  createSucceeds: bool, failingInsert: Option<nat>, total: int, i: nat, isFirstLine: bool,
                  headers: Option<seq<string>>, tableCreated: bool, samples: seq<seq<string>>,
                  batch: seq<seq<string>>, processed: int, inserts: nat, ghost seen: seq<seq<string>>,
                  ghost head: seq<Call>, calls: seq<Call>)
    returns (stop: Option<Outcome>, headers': Option<seq<string>>, tableCreated': bool,
             samples': seq<seq<string>>, batch': seq<seq<string>>, processed': int, inserts': nat,
             ghost seen': seq<seq<string>>, ghost head': seq<Call>, calls': seq<Call>)
    requires i < |lines| && (isFirstLine <==> i == 0)
    requires total == TotalRecords(lines, hasHeader)
    requires Reading(table, lines, hasHeader, isDouble, createSucceeds, failingInsert, i, headers,
                     tableCreated, samples, batch, processed, inserts, seen, head, calls)
    ensures stop.Some? ==>
      Import(table, lines, hasHeader, isDouble, createSucceeds, failingInsert) == Run(stop.value, calls')
    ensures stop.None? ==>
      Reading(table, lines, hasHeader, isDouble, createSucceeds, failingInsert, i + 1, headers',
              tableCreated', samples', batch', processed', inserts', seen', head', calls')
  {
    stop, headers', tableCreated', samples', batch', processed', inserts', seen', head', calls' :=
      None, headers, tableCreated, samples, batch, processed, inserts, seen, head, calls;
    if isFirstLine && hasHeader {
      stop, headers' := ReadHeader(table, lines, hasHeader, isDouble, createSucceeds, failingInsert, headers,
                                   samples, batch, processed, inserts, seen, head, calls);
      if stop.Some? {
        calls' := [];
      }
    } else if lines[i].Malformed? {
      SkipLine(table, lines, hasHeader, isDouble, createSucceeds, failingInsert, i, headers, tableCreated,
               samples, batch, processed, inserts, seen, head, calls);
    } else {
      stop, tableCreated', samples', batch', processed', inserts', seen', head', calls' :=
        ReadRow(table, lines, hasHeader, isDouble, createSucceeds, failingInsert, total, i, headers,
                tableCreated, samples, batch, processed, inserts, seen, head, calls);
    }
  }

  /**
   * The header line: parsed, its names are processed into the column names;
   * unparsable, it ends the import before anything is created.
   */
  method ReadHeader(table: string, lines: seq<ParsedLine>, hasHeader: bool, isDouble: DoubleSyntax,
                    createSucceeds: bool, failingInsert: Option<nat>, headers: Option<seq<string>>,
                    samples: seq<seq<string>>, batch: seq<seq<string>>, processed: int, inserts: nat,
                    ghost seen: seq<seq<string>>, ghost head: seq<Call>, ghost calls: seq<Call>)
    returns (stop: Option<Outcome>, headers': Option<seq<string>>)
    requires hasHeader && lines != []
    requires Reading(table, lines, hasHeader, isDouble, createSucceeds, failingInsert, 0, headers,
                     false, samples, batch, processed, inserts, seen, head, calls)
    ensures stop.Some? ==>
      Import(table, lines, hasHeader, isDouble, createSucceeds, failingInsert) == Run(stop.value, [])
    ensures stop.None? ==>
      Reading(table, lines, hasHeader, isDouble, createSucceeds, failingInsert, 1, headers',
              false, samples, batch, processed, inserts, seen, head, calls)
  {
    SeenStep(lines, hasHeader, 0);
    if lines[0].Malformed? {
      return Some(HeaderUnreadable), headers;
    }
    var h := lines[0].fields;
    var a := new string[|h|](j requires 0 <= j < |h| => h[j]);
    assert a[..] == h;
    ProcessHeaders(a);
    stop, headers' := None, Some(a[..]);
  }

  /** A malformed data line is skipped: nothing changes but the line count. */
  lemma SkipLine(table: string, lines: seq<ParsedLine>, hasHeader: bool, isDouble: DoubleSyntax,
                 createSucceeds: bool, failingInsert: Option<nat>, i: nat, headers: Option<seq<string>>,
                 tableCreated: bool, samples: seq<seq<string>>, batch: seq<seq<string>>, processed: int,
                 inserts: nat, seen: seq<seq<string>>, head: seq<Call>, calls: seq<Call>)
    requires i < |lines| && lines[i].Malformed? && !(hasHeader && i == 0)
    requires Reading(table, lines, hasHeader, isDouble, createSucceeds, failingInsert, i, headers,
                     tableCreated, samples, batch, processed, inserts, seen, head, calls)
    ensures Reading(table, lines, hasHeader, isDouble, createSucceeds, failingInsert, i + 1, headers,
                    tableCreated, samples, batch, processed, inserts, seen, head, calls)
  {
    SeenStep(lines, hasHeader, i);
  }

  /** A parsed data line: its fields are accepted as the next data row. */
  method ReadRow(table: string, lines: seq<ParsedLine>, hasHeader: bool, isDouble: DoubleSyntax,
                 createSucceeds: bool, failingInsert: Option<nat>, total: int, i: nat,
                 headers: Option<seq<string>>, tableCreated: bool, samples: seq<seq<string>>,
                 batch: seq<seq<string>>, processed: int, inserts: nat, ghost seen: seq<seq<string>>,
                 ghost head: seq<Call>, calls: seq<Call>)
    returns (stop: Option<Outcome>, tableCreated': bool, samples': seq<seq<string>>,
             batch': seq<seq<string>>, processed': int, inserts': nat,
             ghost seen': seq<seq<string>>, ghost head': seq<Call>, calls': seq<Call>)
    requires i < |lines| && lines[i].Parsed? && !(hasHeader && i == 0)
    requires total == TotalRecords(lines, hasHeader)
    requires Reading(table, lines, hasHeader, isDouble, createSucceeds, failingInsert, i, headers,
                     tableCreated, samples, batch, processed, inserts, seen, head, calls)
    ensures stop.Some? ==>
      Import(table, lines, hasHeader, isDouble, createSucceeds, failingInsert) == Run(stop.value, calls')
    ensures stop.None? ==>
      Reading(table, lines, hasHeader, isDouble, createSucceeds, failingInsert, i + 1, headers,
              tableCreated', samples', batch', processed', inserts', seen', head', calls')
  {
    var fields := lines[i].fields;
    SeenStep(lines, hasHeader, i);
    ghost var data := DataRows(lines, hasHeader);
    assert seen + [fields] == DataRows(lines[..i + 1], hasHeader);
    DataRowsPrefix(lines, hasHeader, i + 1);
    if !tableCreated {
      HeadersAtCreation(lines, hasHeader, i, headers, |fields|);
    }
    var made;
    stop, made, tableCreated', samples', batch', processed', inserts', head' :=
      AcceptRow(table, lines, hasHeader, isDouble, createSucceeds, failingInsert, total, headers, fields,
                tableCreated, samples, batch, processed, inserts, data, seen, head, calls);
    calls' := calls + made;
    seen' := seen + [fields];
    if stop.None? {
      ReadingAfterRow(table, lines, hasHeader, isDouble, createSucceeds, failingInsert, i, headers,
                      tableCreated, tableCreated', samples', batch', processed', inserts', seen, head', calls');
    }
  }

  /** Reading goes on to the next line once a row was accepted without failure. */
  lemma ReadingAfterRow(table: string, lines: seq<ParsedLine>, hasHeader: bool, isDouble: DoubleSyntax,
                        createSucceeds: bool, failingInsert: Option<nat>, i: nat,
                        headers: Option<seq<string>>, tableCreated: bool, tableCreated': bool,
                        samples': seq<seq<string>>, batch': seq<seq<string>>, processed': int, inserts': nat,
                        seen: seq<seq<string>>, head': seq<Call>, calls': seq<Call>)
    requires i < |lines| && lines[i].Parsed? && !(hasHeader && i == 0)
    requires 0 <= i && (hasHeader && i > 0 ==> lines[0].Parsed?)
    requires !tableCreated ==>
       headers == (if hasHeader && i > 0 then Some(ProcessedHeaders(lines[0].fields)) else None)
    requires seen + [lines[i].fields] == DataRows(lines[..i + 1], hasHeader)
    requires |seen| + 1 <= |DataRows(lines, hasHeader)|
    requires tableCreated ==> tableCreated'
    requires tableCreated' ==> createSucceeds
    requires failingInsert.None? || inserts' <= failingInsert.value
    requires |seen| + 1 > SampleSize ==> head' == HeadCalls(table, lines, hasHeader, isDouble, DataRows(lines, hasHeader))
    requires LoopState(table, TotalRecords(lines, hasHeader), seen + [lines[i].fields], tableCreated', samples',
                       batch', processed', inserts', head', calls')
    ensures Reading(table, lines, hasHeader, isDouble, createSucceeds, failingInsert, i + 1, headers,
                    tableCreated', samples', batch', processed', inserts', seen + [lines[i].fields], head', calls')
  {
  }

  /** Once every line is read, `seen` is every data row. */
  lemma ReadAll(table: string, lines: seq<ParsedLine>, hasHeader: bool, isDouble: DoubleSyntax,
                createSucceeds: bool, failingInsert: Option<nat>, headers: Option<seq<string>>,
                tableCreated: bool, samples: seq<seq<string>>, batch: seq<seq<string>>, processed: int,
                inserts: nat, seen: seq<seq<string>>, head: seq<Call>, calls: seq<Call>)
    requires Reading(table, lines, hasHeader, isDouble, createSucceeds, failingInsert, |lines|, headers,
                     tableCreated, samples, batch, processed, inserts, seen, head, calls)
    ensures seen == DataRows(lines, hasHeader) && !HeaderUnparsable(lines, hasHeader)
    ensures !tableCreated ==>
      headers == (if hasHeader && lines != [] then Some(ProcessedHeaders(lines[0].fields)) else None)
  {
    assert lines[..|lines|] == lines;
  }

  /**
   * What importTSV does with one parsed data row `fields`: it becomes a
   * sample while the sample list has room; otherwise the first such row
   * creates the table (and the samples are inserted), and the row joins
   * the batch, which is inserted and reported once it holds BatchSize rows.
   * `made` are the calls this makes; `failure` is set when one of them fails.
   */
  method AcceptRow(table: string, ghost lines: seq<ParsedLine>, ghost hasHeader: bool, isDouble: DoubleSyntax,
                   createSucceeds: bool, failingInsert: Option<nat>, total: int,
                   headers: Option<seq<string>>, fields: seq<string>,
                   tableCreated: bool, samples: seq<seq<string>>, batch: seq<seq<string>>,
                   processed: int, inserts: nat,
                   ghost data: seq<seq<string>>, ghost seen: seq<seq<string>>, ghost head: seq<Call>,
                   ghost calls: seq<Call>)
    returns (failure: Option<Outcome>, made: seq<Call>, tableCreated': bool, samples': seq<seq<string>>,
             batch': seq<seq<string>>, processed': int, inserts': nat, ghost head': seq<Call>)
    requires !HeaderUnparsable(lines, hasHeader)
    requires total == TotalRecords(lines, hasHeader) && data == DataRows(lines, hasHeader)
    requires |seen| < |data| && data[..|seen| + 1] == seen + [fields]
    requires |seen| > SampleSize ==> head == HeadCalls(table, lines, hasHeader, isDouble, data)
    requires !tableCreated ==>
      ProcessedHeaders(if headers.Some? then headers.value else DefaultHeaders(|fields|)) ==
      TableHeaders(lines, hasHeader, |fields|)
    requires tableCreated ==> createSucceeds
    requires failingInsert.None? || inserts <= failingInsert.value
    requires LoopState(table, total, seen, tableCreated, samples, batch, processed, inserts, head, calls)
    ensures failure.Some? ==>
      Import(table, lines, hasHeader, isDouble, createSucceeds, failingInsert) == Run(failure.value, calls + made)
    ensures failure.None? ==>
      (tableCreated ==> tableCreated') && (tableCreated' ==> createSucceeds) &&
      (failingInsert.None? || inserts' <= failingInsert.value) &&
      (|seen| + 1 > SampleSize ==> head' == HeadCalls(table, lines, hasHeader, isDouble, data)) &&
      LoopState(table, total, seen + [fields], tableCreated', samples', batch', processed', inserts', head',
                calls + made)
  {
    tableCreated', samples', batch', processed', inserts', head' :=
      tableCreated, samples, batch, processed, inserts, head;
    made := [];
    failure := None;
    ghost var next := seen + [fields];
    if |samples| < SampleSize {
      SampleStep(table, total, seen, fields, tableCreated, samples, batch, processed, inserts, head, calls);
      samples' := samples + [fields];
      return;
    }
    if !tableCreated {
      assert |seen| <= SampleSize;
      failure, made, head' := StartTable(table, lines, hasHeader, isDouble, createSucceeds, failingInsert, total,
                                         headers, fields, samples, data, seen);
      if failure.None? {
        NextInsert(failingInsert, 0);
        tableCreated', samples', batch', processed', inserts' := true, [], [fields], SampleSize + 1, 1;
      }
      return;
    }
    failure, made, batch', processed', inserts' :=
      AddToBatch(table, lines, hasHeader, isDouble, failingInsert, total, fields, samples, batch, processed,
                 inserts, data, seen, head, calls);
  }

  /**
   * The row that finds the sample list full while no table exists yet: the
   * table is created from the samples, which are then inserted, and the row
   * starts the first batch.
   */
  method StartTable(table: string, ghost lines: seq<ParsedLine>, ghost hasHeader: bool, isDouble: DoubleSyntax,
                    createSucceeds: bool, failingInsert: Option<nat>, total: int,
                    headers: Option<seq<string>>, fields: seq<string>, samples: seq<seq<string>>,
                    ghost data: seq<seq<string>>, ghost seen: seq<seq<string>>)
    returns (failure: Option<Outcome>, made: seq<Call>, ghost head: seq<Call>)
    requires !HeaderUnparsable(lines, hasHeader)
    requires total == TotalRecords(lines, hasHeader) && data == DataRows(lines, hasHeader)
    requires |seen| < |data| && data[..|seen| + 1] == seen + [fields]
    requires ProcessedHeaders(if headers.Some? then headers.value else DefaultHeaders(|fields|)) ==
             TableHeaders(lines, hasHeader, |fields|)
    requires samples == seen && |samples| == SampleSize
    ensures failure.Some? ==>
      Import(table, lines, hasHeader, isDouble, createSucceeds, failingInsert) == Run(failure.value, made)
    ensures failure.None? ==>
      createSucceeds && failingInsert != Some(0) && made == head &&
      head == HeadCalls(table, lines, hasHeader, isDouble, data) &&
      LoopState(table, total, seen + [fields], true, [], [fields], SampleSize + 1, 1, head, made)
  {
    ghost var next := seen + [fields];
    assert next[..SampleSize] == samples && next[SampleSize] == fields;
    FirstCalls(table, lines, hasHeader, isDouble, next);
    head := HeadCalls(table, lines, hasHeader, isDouble, data);
    CreateStep(table, total, seen, fields, samples, head);
    failure, made := CreateWithSamples(table, headers, |fields|, samples, isDouble, total, 0,
                                       createSucceeds, failingInsert == Some(0));
    if failure.Some? {
      CreationFailedRun(table, lines, hasHeader, isDouble, createSucceeds, failingInsert, head, failure, made);
    }
  }

  /**
   * A row once the table exists and the sample list is full: it joins the
   * batch, and a batch of BatchSize rows is inserted and reported.
   */
  method AddToBatch(table: string, ghost lines: seq<ParsedLine>, ghost hasHeader: bool, isDouble: DoubleSyntax,
                    failingInsert: Option<nat>, total: int, fields: seq<string>,
                    samples: seq<seq<string>>, batch: seq<seq<string>>, processed: int, inserts: nat,
                    ghost data: seq<seq<string>>, ghost seen: seq<seq<string>>, ghost head: seq<Call>,
                    ghost calls: seq<Call>)
    returns (failure: Option<Outcome>, made: seq<Call>, batch': seq<seq<string>>, processed': int, inserts': nat)
    requires !HeaderUnparsable(lines, hasHeader)
    requires total == TotalRecords(lines, hasHeader) && data == DataRows(lines, hasHeader)
    requires |seen| < |data| && data[..|seen| + 1] == seen + [fields]
    requires |seen| > SampleSize ==> head == HeadCalls(table, lines, hasHeader, isDouble, data)
    requires |samples| >= SampleSize
    requires failingInsert.None? || inserts <= failingInsert.value
    requires LoopState(table, total, seen, true, samples, batch, processed, inserts, head, calls)
    ensures failure.Some? ==>
      Import(table, lines, hasHeader, isDouble, true, failingInsert) == Run(failure.value, calls + made)
    ensures failure.None? ==>
      (failingInsert.None? || inserts' <= failingInsert.value) &&
      LoopState(table, total, seen + [fields], true, samples, batch', processed', inserts', head, calls + made)
  {
    made := [];
    failure := None;
    ghost var next := seen + [fields];
    BatchStep(table, total, seen, fields, samples, batch, processed, inserts, head, calls);
    batch' := batch + [fields];
    processed' := processed + 1;
    inserts' := inserts;
    if |batch'| >= BatchSize {
      failure, made := FlushBatch(table, lines, hasHeader, isDouble, failingInsert, total, batch', processed',
                                  inserts, next, head, calls);
      if failure.None? {
        NextInsert(failingInsert, inserts);
        inserts' := inserts + 1;
        batch' := [];
      }
    } else {
      assert calls + made == calls;
    }
  }

  /**
   * A full batch is inserted and its progress reported; `made` is the
   * insert alone when that insert fails.
   */
  method FlushBatch(table: string, ghost lines: seq<ParsedLine>, ghost hasHeader: bool, isDouble: DoubleSyntax,
                    failingInsert: Option<nat>, total: int, batch: seq<seq<string>>, processed: int,
                    inserts: nat, ghost next: seq<seq<string>>, ghost head: seq<Call>, ghost calls: seq<Call>)
    returns (failure: Option<Outcome>, made: seq<Call>)
    requires !HeaderUnparsable(lines, hasHeader) && total == TotalRecords(lines, hasHeader)
    requires SampleSize < |next| <= |DataRows(lines, hasHeader)| && DataRows(lines, hasHeader)[..|next|] == next
    requires head == HeadCalls(table, lines, hasHeader, isDouble, DataRows(lines, hasHeader))
    requires |Committed(next)| == inserts * BatchSize
    requires head + BatchCalls(table, Committed(next), total, SampleSize)
               == calls + [BatchInsert(table, batch), Progress(total, processed)]
    ensures failure.Some? ==>
      Import(table, lines, hasHeader, isDouble, true, failingInsert) == Run(failure.value, calls + made)
    ensures failure.None? ==>
      failingInsert != Some(inserts) && made == [BatchInsert(table, batch), Progress(total, processed)]
  {
    if failingInsert == Some(inserts) {
      made := [BatchInsert(table, batch)];
      FullBatchFails(table, lines, hasHeader, isDouble, total, batch, processed, inserts, next, head, calls);
      return Some(InsertFailed), made;
    }
    return None, [BatchInsert(table, batch), Progress(total, processed)];
  }

  /** The run that ends when the insert of a full batch throws. */
  lemma FullBatchFails(table: string, lines: seq<ParsedLine>, hasHeader: bool, isDouble: DoubleSyntax,
                       total: int, batch: seq<seq<string>>, processed: int, inserts: nat,
                       next: seq<seq<string>>, head: seq<Call>, calls: seq<Call>)
    requires !HeaderUnparsable(lines, hasHeader) && total == TotalRecords(lines, hasHeader)
    requires SampleSize < |next| <= |DataRows(lines, hasHeader)| && DataRows(lines, hasHeader)[..|next|] == next
    requires head == HeadCalls(table, lines, hasHeader, isDouble, DataRows(lines, hasHeader))
    requires |Committed(next)| == inserts * BatchSize
    requires head + BatchCalls(table, Committed(next), total, SampleSize)
               == calls + [BatchInsert(table, batch), Progress(total, processed)]
    ensures Import(table, lines, hasHeader, isDouble, true, Some(inserts))
              == Run(InsertFailed, calls + [BatchInsert(table, batch)])
  {
    var bc := BatchCalls(table, Committed(next), total, SampleSize);
    assert Committed(next)[..inserts * BatchSize] == Committed(next);
    PrefixOfImport(table, lines, hasHeader, isDouble, next, inserts);
    var all := ImportCalls(table, lines, hasHeader, isDouble);
    var failed := calls + [BatchInsert(table, batch)];
    assert head + bc == failed + [Progress(total, processed)];
    assert |head + bc| == 3 + 2 * inserts && all[..|head + bc|] == head + bc;
    InsertFailedRun(table, lines, hasHeader, isDouble, inserts, failed, Progress(total, processed));
  }

  /**
   * The end of importTSV, once the last line is read: a file of at most
   * SampleSize rows creates the table now and inserts its samples; a larger
   * one inserts what is left of the last batch.
   */
  method FinishImport(table: string, lines: seq<ParsedLine>, hasHeader: bool, isDouble: DoubleSyntax,
                      createSucceeds: bool, failingInsert: Option<nat>, headers: Option<seq<string>>,
                      tableCreated: bool, samples: seq<seq<string>>, batch: seq<seq<string>>,
                      processed: int, inserts: nat, ghost head: seq<Call>, calls0: seq<Call>)
    returns (outcome: Outcome, calls: seq<Call>)
    requires !HeaderUnparsable(lines, hasHeader)
    requires !tableCreated ==>
      headers == (if hasHeader && lines != [] then Some(ProcessedHeaders(lines[0].fields)) else None)
    requires tableCreated ==> createSucceeds
    requires failingInsert.None? || inserts <= failingInsert.value
    requires LoopState(table, TotalRecords(lines, hasHeader), DataRows(lines, hasHeader), tableCreated,
                       samples, batch, processed, inserts, head, calls0)
    requires |DataRows(lines, hasHeader)| > SampleSize ==>
      head == HeadCalls(table, lines, hasHeader, isDouble, DataRows(lines, hasHeader))
    ensures Run(outcome, calls) == Import(table, lines, hasHeader, isDouble, createSucceeds, failingInsert)
  {
    if !tableCreated && samples != [] {
      outcome, calls := CreateAtEnd(table, lines, hasHeader, isDouble, createSucceeds, failingInsert, headers,
                                    samples);
    } else if tableCreated {
      outcome, calls := FlushLastBatch(table, lines, hasHeader, isDouble, failingInsert, samples, batch,
                                       processed, inserts, head, calls0);
    } else {
      CompletedRun(table, lines, hasHeader, isDouble, createSucceeds, failingInsert, calls0);
      outcome, calls := Completed, calls0;
    }
  }

  /**
   * A file of at most SampleSize rows: the table is created only now, from
   * all of its rows, which are then inserted as one batch.
   */
  method CreateAtEnd(table: string, lines: seq<ParsedLine>, hasHeader: bool, isDouble: DoubleSyntax,
                     createSucceeds: bool, failingInsert: Option<nat>, headers: Option<seq<string>>,
                     samples: seq<seq<string>>)
    returns (outcome: Outcome, calls: seq<Call>)
    requires !HeaderUnparsable(lines, hasHeader)
    requires headers == (if hasHeader && lines != [] then Some(ProcessedHeaders(lines[0].fields)) else None)
    requires samples == DataRows(lines, hasHeader) && 0 < |samples| <= SampleSize
    ensures Run(outcome, calls) == Import(table, lines, hasHeader, isDouble, createSucceeds, failingInsert)
  {
    var total := |lines| - (if hasHeader then 1 else 0);
    HeadersAtCreation(lines, hasHeader, |lines|, headers, |samples[0]|);
    var failure;
    failure, calls := CreateWithSamples(table, headers, |samples[0]|, samples, isDouble, total, 0,
                                        createSucceeds, failingInsert == Some(0));
    ghost var all := ImportCalls(table, lines, hasHeader, isDouble);
    assert all[..3] == all;
    if failure.Some? {
      CreationFailedRun(table, lines, hasHeader, isDouble, createSucceeds, failingInsert, all, failure, calls);
      return failure.value, calls;
    }
    CompletedRun(table, lines, hasHeader, isDouble, createSucceeds, failingInsert, calls);
    outcome := Completed;
  }

  /** A larger file: what is left in the last batch is inserted and reported. */
  method FlushLastBatch(table: string, lines: seq<ParsedLine>, hasHeader: bool, isDouble: DoubleSyntax,
                        failingInsert: Option<nat>, samples: seq<seq<string>>, batch: seq<seq<string>>,
                        processed: int, inserts: nat, ghost head: seq<Call>, calls0: seq<Call>)
    returns (outcome: Outcome, calls: seq<Call>)
    requires !HeaderUnparsable(lines, hasHeader)
    requires failingInsert.None? || inserts <= failingInsert.value
    requires LoopState(table, TotalRecords(lines, hasHeader), DataRows(lines, hasHeader), true,
                       samples, batch, processed, inserts, head, calls0)
    requires |DataRows(lines, hasHeader)| > SampleSize ==>
      head == HeadCalls(table, lines, hasHeader, isDouble, DataRows(lines, hasHeader))
    ensures Run(outcome, calls) == Import(table, lines, hasHeader, isDouble, true, failingInsert)
  {
    var total := |lines| - (if hasHeader then 1 else 0);
    if batch == [] {
      NoLastBatchRun(table, lines, hasHeader, isDouble, failingInsert, samples, processed, inserts, head, calls0);
      return Completed, calls0;
    }
    calls := calls0 + [BatchInsert(table, batch)];
    if failingInsert == Some(inserts) {
      LastBatchFails(table, lines, hasHeader, isDouble, samples, batch, processed, inserts, head, calls0);
      return InsertFailed, calls;
    }
    LastBatchRun(table, lines, hasHeader, isDouble, failingInsert, samples, batch, processed, inserts, head, calls0);
    calls := calls + [Progress(total, processed)];
    outcome := Completed;
  }

  /** With no rows left in the batch, the run completes with the calls made so far. */
  lemma NoLastBatchRun(table: string, lines: seq<ParsedLine>, hasHeader: bool, isDouble: DoubleSyntax,
                       failingInsert: Option<nat>, samples: seq<seq<string>>, processed: int, inserts: nat,
                       head: seq<Call>, calls: seq<Call>)
    requires !HeaderUnparsable(lines, hasHeader)
    requires failingInsert.None? || inserts <= failingInsert.value
    requires LoopState(table, TotalRecords(lines, hasHeader), DataRows(lines, hasHeader), true,
                       samples, [], processed, inserts, head, calls)
    requires |DataRows(lines, hasHeader)| > SampleSize ==>
      head == HeadCalls(table, lines, hasHeader, isDouble, DataRows(lines, hasHeader))
    ensures Import(table, lines, hasHeader, isDouble, true, failingInsert) == Run(Completed, calls)
  {
    var total := TotalRecords(lines, hasHeader);
    FinishLarge(table, total, DataRows(lines, hasHeader), samples, [], processed, inserts, head, calls);
    LargeImportCalls(table, lines, hasHeader, isDouble);
    CompletedRun(table, lines, hasHeader, isDouble, true, failingInsert, calls);
  }

  /** The insert of the last, partial batch throws. */
  lemma LastBatchFails(table: string, lines: seq<ParsedLine>, hasHeader: bool, isDouble: DoubleSyntax,
                       samples: seq<seq<string>>, batch: seq<seq<string>>, processed: int, inserts: nat,
                       head: seq<Call>, calls: seq<Call>)
    requires !HeaderUnparsable(lines, hasHeader) && batch != []
    requires LoopState(table, TotalRecords(lines, hasHeader), DataRows(lines, hasHeader), true,
                       samples, batch, processed, inserts, head, calls)
    requires |DataRows(lines, hasHeader)| > SampleSize ==>
      head == HeadCalls(table, lines, hasHeader, isDouble, DataRows(lines, hasHeader))
    ensures Import(table, lines, hasHeader, isDouble, true, Some(inserts))
              == Run(InsertFailed, calls + [BatchInsert(table, batch)])
  {
    var total := TotalRecords(lines, hasHeader);
    FinishLarge(table, total, DataRows(lines, hasHeader), samples, batch, processed, inserts, head, calls);
    LargeImportCalls(table, lines, hasHeader, isDouble);
    InsertFailedRun(table, lines, hasHeader, isDouble, inserts, calls + [BatchInsert(table, batch)],
                    Progress(total, processed));
  }

  /** The last, partial batch is inserted and reported, and the run completes. */
  lemma LastBatchRun(table: string, lines: seq<ParsedLine>, hasHeader: bool, isDouble: DoubleSyntax,
                     failingInsert: Option<nat>, samples: seq<seq<string>>, batch: seq<seq<string>>,
                     processed: int, inserts: nat, head: seq<Call>, calls: seq<Call>)
    requires !HeaderUnparsable(lines, hasHeader) && batch != []
    requires failingInsert.None? || inserts < failingInsert.value
    requires LoopState(table, TotalRecords(lines, hasHeader), DataRows(lines, hasHeader), true,
                       samples, batch, processed, inserts, head, calls)
    requires |DataRows(lines, hasHeader)| > SampleSize ==>
      head == HeadCalls(table, lines, hasHeader, isDouble, DataRows(lines, hasHeader))
    ensures Import(table, lines, hasHeader, isDouble, true, failingInsert)
              == Run(Completed, calls + [BatchInsert(table, batch), Progress(TotalRecords(lines, hasHeader), processed)])
  {
    var total := TotalRecords(lines, hasHeader);
    FinishLarge(table, total, DataRows(lines, hasHeader), samples, batch, processed, inserts, head, calls);
    LargeImportCalls(table, lines, hasHeader, isDouble);
    CompletedRun(table, lines, hasHeader, isDouble, true, failingInsert,
                 calls + [BatchInsert(table, batch), Progress(total, processed)]);
  }

  /** An insert that did not fail is not the failing one, so the next one may be. */
  lemma NextInsert(failingInsert: Option<nat>, inserts: nat)
    requires failingInsert.None? || inserts <= failingInsert.value
    requires failingInsert != Some(inserts)
    ensures failingInsert.None? || inserts + 1 <= failingInsert.value
  {
  }

  // ---------------------------------------------------------------------
  // Lemmas about rows

  lemma {:induction false} RowsAppend(a: seq<ParsedLine>, b: seq<ParsedLine>)
    ensures Rows(a + b) == Rows(a) + Rows(b)
    decreases |b|
  {
    if b == [] {
      assert a + b == a;
    } else {
      var last := b[|b| - 1];
      assert (a + b)[..|a + b| - 1] == a + b[..|b| - 1];
      RowsAppend(a, b[..|b| - 1]);
    }
  }

  /** Reading line `i` adds its fields to the data rows, unless it is the header or unparsable. */
  lemma SeenStep(lines: seq<ParsedLine>, hasHeader: bool, i: nat)
    requires i < |lines|
    ensures (hasHeader && i == 0) || lines[i].Malformed? ==>
      DataRows(lines[..i + 1], hasHeader) == DataRows(lines[..i], hasHeader)
    ensures !(hasHeader && i == 0) && lines[i].Parsed? ==>
      DataRows(lines[..i + 1], hasHeader) == DataRows(lines[..i], hasHeader) + [lines[i].fields]
  {
    if hasHeader && i == 0 {
      assert Body(lines[..1], hasHeader) == [];
    } else {
      assert Body(lines[..i + 1], hasHeader) == Body(lines[..i], hasHeader) + [lines[i]];
      RowsAppend(Body(lines[..i], hasHeader), [lines[i]]);
    }
  }

  /** The data rows of the first `i` lines begin the data rows of the file. */
  lemma DataRowsPrefix(lines: seq<ParsedLine>, hasHeader: bool, i: nat)
    requires i <= |lines|
    ensures var s := DataRows(lines[..i], hasHeader);
      |s| <= |DataRows(lines, hasHeader)| && DataRows(lines, hasHeader)[..|s|] == s
  {
    var front := Body(lines[..i], hasHeader);
    if !(hasHeader && i == 0) {
      assert Body(lines, hasHeader) == front + lines[i..];
      RowsAppend(front, lines[i..]);
    }
  }

  // ---------------------------------------------------------------------
  // Lemmas about batches

  lemma {:induction false} BatchCallsAppend(table: string, rows: seq<seq<string>>, more: seq<seq<string>>,
                                            total: int, done: int, j: nat)
    requires |rows| == j * BatchSize
    ensures BatchCalls(table, rows + more, total, done) ==
            BatchCalls(table, rows, total, done) + BatchCalls(table, more, total, done + |rows|)
    ensures |BatchCalls(table, rows, total, done)| == 2 * j
    decreases j
  {
    if j == 0 {
      assert rows + more == more;
    } else {
      assert (rows + more)[..BatchSize] == rows[..BatchSize];
      assert (rows + more)[BatchSize..] == rows[BatchSize..] + more;
      BatchCallsAppend(table, rows[BatchSize..], more, total, done + BatchSize, j - 1);
    }
  }

  /** A batch no larger than BatchSize goes in one call. */
  lemma BatchCallsSingle(table: string, rows: seq<seq<string>>, total: int, done: int)
    requires 0 < |rows| <= BatchSize
    ensures BatchCalls(table, rows, total, done) ==
            [BatchInsert(table, rows), Progress(total, done + |rows|)]
  {
    assert rows[..|rows|] == rows;
    assert rows[|rows|..] == [];
  }

  // ---------------------------------------------------------------------
  // Lemmas about the loop

  /** A row that goes into the sample list. */
  lemma SampleStep(table: string, total: int, seen: seq<seq<string>>, row: seq<string>, tableCreated: bool,
                   samples: seq<seq<string>>, batch: seq<seq<string>>, processed: int, inserts: nat,
                   head: seq<Call>, calls: seq<Call>)
    requires LoopState(table, total, seen, tableCreated, samples, batch, processed, inserts, head, calls)
    requires |samples| < SampleSize
    ensures LoopState(table, total, seen + [row], tableCreated, samples + [row], batch, processed, inserts,
                      head, calls)
  {
    var s := seen + [row];
    if |seen| > SampleSize {
      assert |seen| <= 2 * SampleSize;
      assert Committed(s) == Committed(seen);
      assert s[SampleSize + 1..Min(|s|, 2 * SampleSize + 1)] == samples + [row];
    }
  }

  /** Row SampleSize + 1 creates the table, inserts the samples and opens the first batch. */
  lemma CreateStep(table: string, total: int, seen: seq<seq<string>>, row: seq<string>,
                   samples: seq<seq<string>>, head: seq<Call>)
    requires LoopState(table, total, seen, false, samples, [], 0, 0, head, [])
    requires |samples| >= SampleSize
    ensures LoopState(table, total, seen + [row], true, [], [row], SampleSize + 1, 1, head, head)
  {
    var s := seen + [row];
    assert Committed(s) == [row];
    assert s[SampleSize + 1..Min(|s|, 2 * SampleSize + 1)] == [];
  }

  /** A row after the second sample list is full goes into the batch, which is flushed when full. */
  lemma BatchStep(table: string, total: int, seen: seq<seq<string>>, row: seq<string>,
                  samples: seq<seq<string>>, batch: seq<seq<string>>, processed: int, inserts: nat,
                  head: seq<Call>, calls: seq<Call>)
    requires LoopState(table, total, seen, true, samples, batch, processed, inserts, head, calls)
    requires |samples| >= SampleSize
    ensures |seen| > SampleSize
    ensures var s := seen + [row]; var b := batch + [row];
      |b| <= BatchSize &&
      (|b| < BatchSize ==>
        LoopState(table, total, s, true, samples, b, processed + 1, inserts, head, calls)) &&
      (|b| == BatchSize ==>
        |Committed(s)| == inserts * BatchSize &&
        head + BatchCalls(table, Committed(s), total, SampleSize)
          == calls + [BatchInsert(table, b), Progress(total, processed + 1)] &&
        LoopState(table, total, s, true, samples, [], processed + 1, inserts + 1, head,
                  calls + [BatchInsert(table, b), Progress(total, processed + 1)]))
  {
    var s := seen + [row];
    assert |seen| >= 2 * SampleSize + 1;
    CommittedGrows(seen, row);
    var nb := Committed(s);
    var f := (inserts - 1) * BatchSize;
    assert nb[..f] == Committed(seen)[..f];
    assert nb[f..] == batch + [row];
    if |batch| + 1 == BatchSize {
      FlushFull(table, total, nb, f, head, calls);
      assert nb[..inserts * BatchSize] == nb;
    }
  }

  /** Past the second sample list, a new row is committed and the sample list stays as it was. */
  lemma CommittedGrows(seen: seq<seq<string>>, row: seq<string>)
    requires |seen| >= 2 * SampleSize + 1
    ensures Committed(seen + [row]) == Committed(seen) + [row]
    ensures (seen + [row])[SampleSize + 1..Min(|seen| + 1, 2 * SampleSize + 1)]
              == seen[SampleSize + 1..Min(|seen|, 2 * SampleSize + 1)]
  {
    var s := seen + [row];
    assert s[2 * SampleSize + 1..] == seen[2 * SampleSize + 1..] + [row];
  }

  /** When the batch after f committed rows is full, its insert and report follow the calls so far. */
  lemma FlushFull(table: string, total: int, nb: seq<seq<string>>, f: nat, head: seq<Call>, calls: seq<Call>)
    requires f % BatchSize == 0 && |nb| == f + BatchSize
    requires calls == head + BatchCalls(table, nb[..f], total, SampleSize)
    ensures head + BatchCalls(table, nb, total, SampleSize)
              == calls + [BatchInsert(table, nb[f..]), Progress(total, SampleSize + |nb|)]
  {
    assert nb == nb[..f] + nb[f..];
    BatchCallsAppend(table, nb[..f], nb[f..], total, SampleSize, f / BatchSize);
    BatchCallsSingle(table, nb[f..], total, SampleSize + f);
  }

  /** After the last line, with the table created: what is left is the final partial batch. */
  lemma FinishLarge(table: string, total: int, seen: seq<seq<string>>, samples: seq<seq<string>>,
                    batch: seq<seq<string>>, processed: int, inserts: nat, head: seq<Call>, calls: seq<Call>)
    requires LoopState(table, total, seen, true, samples, batch, processed, inserts, head, calls)
    ensures |seen| > SampleSize
    ensures |calls| == |head| + 2 * (inserts - 1)
    ensures var all := head + BatchCalls(table, Committed(seen), total, SampleSize);
      if batch == [] then all == calls
      else all == calls + [BatchInsert(table, batch), Progress(total, processed)]
  {
    var b := Committed(seen);
    var f := (inserts - 1) * BatchSize;
    assert b == b[..f] + b[f..];
    BatchCallsAppend(table, b[..f], b[f..], total, SampleSize, inserts - 1);
    if batch != [] {
      BatchCallsSingle(table, b[f..], total, SampleSize + f);
    }
  }

  // ---------------------------------------------------------------------
  // Lemmas that tie the loop to the calls of the whole import

  /** The calls of a file with more than SampleSize rows. */
  lemma LargeImportCalls(table: string, lines: seq<ParsedLine>, hasHeader: bool, isDouble: DoubleSyntax)
    requires |DataRows(lines, hasHeader)| > SampleSize
    ensures var d := DataRows(lines, hasHeader);
      ImportCalls(table, lines, hasHeader, isDouble) ==
      HeadCalls(table, lines, hasHeader, isDouble, d)
        + BatchCalls(table, Committed(d), TotalRecords(lines, hasHeader), SampleSize)
  {
  }

  /**
   * When row SampleSize + 1 arrives, the import's first three calls are
   * the creation block's, named after that row and typed from the rows before.
   */
  lemma FirstCalls(table: string, lines: seq<ParsedLine>, hasHeader: bool, isDouble: DoubleSyntax,
                   s: seq<seq<string>>)
    requires |s| == SampleSize + 1
    requires |s| <= |DataRows(lines, hasHeader)| && DataRows(lines, hasHeader)[..|s|] == s
    ensures var d := DataRows(lines, hasHeader); var all := ImportCalls(table, lines, hasHeader, isDouble);
      HeadCalls(table, lines, hasHeader, isDouble, d) ==
        CreationCalls(table, TableHeaders(lines, hasHeader, |s[SampleSize]|), s[..SampleSize], isDouble,
                      TotalRecords(lines, hasHeader), 0) &&
      3 <= |all| && all[..3] == HeadCalls(table, lines, hasHeader, isDouble, d)
  {
    var d := DataRows(lines, hasHeader);
    assert d[..SampleSize] == s[..SampleSize] && d[SampleSize] == s[SampleSize];
    LargeImportCalls(table, lines, hasHeader, isDouble);
  }

  /** The calls up to the j-th full batch of the rows seen so far begin the calls of the whole import. */
  lemma PrefixOfImport(table: string, lines: seq<ParsedLine>, hasHeader: bool, isDouble: DoubleSyntax,
                       s: seq<seq<string>>, j: nat)
    requires SampleSize < |s| <= |DataRows(lines, hasHeader)| && DataRows(lines, hasHeader)[..|s|] == s
    requires j * BatchSize <= |Committed(s)|
    ensures var d := DataRows(lines, hasHeader);
      var c := HeadCalls(table, lines, hasHeader, isDouble, d)
               + BatchCalls(table, Committed(s)[..j * BatchSize], TotalRecords(lines, hasHeader), SampleSize);
      var all := ImportCalls(table, lines, hasHeader, isDouble);
      |c| == 3 + 2 * j && |c| <= |all| && all[..|c|] == c
  {
    var d := DataRows(lines, hasHeader);
    var total := TotalRecords(lines, hasHeader);
    LargeImportCalls(table, lines, hasHeader, isDouble);
    var bd := Committed(d);
    var pre := Committed(s)[..j * BatchSize];
    CommittedOfPrefix(d, s);
    assert bd == pre + bd[|pre|..];
    BatchCallsAppend(table, pre, bd[|pre|..], total, SampleSize, j);
    PrefixOfAppend(HeadCalls(table, lines, hasHeader, isDouble, d), BatchCalls(table, pre, total, SampleSize),
                   BatchCalls(table, bd[|pre|..], total, SampleSize + |pre|));
  }

  /** The rows committed from a prefix of the data rows begin the rows committed from all of them. */
  lemma CommittedOfPrefix(d: seq<seq<string>>, s: seq<seq<string>>)
    requires SampleSize < |s| <= |d| && d[..|s|] == s
    ensures |Committed(s)| <= |Committed(d)| && Committed(d)[..|Committed(s)|] == Committed(s)
  {
    assert s[SampleSize] == d[SampleSize];
    if |s| > 2 * SampleSize + 1 {
      assert s[2 * SampleSize + 1..] == d[2 * SampleSize + 1..|s|];
    }
  }

  lemma PrefixOfAppend<T>(a: seq<T>, b: seq<T>, r: seq<T>)
    ensures (a + (b + r))[..|a| + |b|] == a + b
  {
    assert a + (b + r) == (a + b) + r;
  }

  /** The names processed at creation are TableHeaders, whichever way `headers` was filled. */
  lemma HeadersAtCreation(lines: seq<ParsedLine>, hasHeader: bool, i: nat, headers: Option<seq<string>>,
                          width: nat)
    requires i <= |lines| && (hasHeader && lines != [] ==> i > 0)
    requires hasHeader && i > 0 ==> lines[0].Parsed?
    requires headers == (if hasHeader && i > 0 then Some(ProcessedHeaders(lines[0].fields)) else None)
    ensures ProcessedHeaders(if headers.Some? then headers.value else DefaultHeaders(width)) ==
            TableHeaders(lines, hasHeader, width)
  {
  }

  /**
   * The creation block failed: createTable answered false, or the samples'
   * batchInsert (the first of the import) threw. `all` is the block's
   * three calls, which begin the import's calls.
   */
  lemma CreationFailedRun(table: string, lines: seq<ParsedLine>, hasHeader: bool, isDouble: DoubleSyntax,
                          createSucceeds: bool, failingInsert: Option<nat>, all: seq<Call>,
                          failure: Option<Outcome>, calls: seq<Call>)
    requires !HeaderUnparsable(lines, hasHeader)
    requires |all| == 3 && |all| <= |ImportCalls(table, lines, hasHeader, isDouble)|
    requires ImportCalls(table, lines, hasHeader, isDouble)[..3] == all
    requires failure == (if !createSucceeds then Some(CreateFailed)
                         else if failingInsert == Some(0) then Some(InsertFailed) else None)
    requires calls == all[..if !createSucceeds then 1 else if failingInsert == Some(0) then 2 else 3]
    requires failure.Some?
    ensures Import(table, lines, hasHeader, isDouble, createSucceeds, failingInsert) == Run(failure.value, calls)
  {
  }

  /** batchInsert call number k throws: the import stops after it, before its report `next`. */
  lemma InsertFailedRun(table: string, lines: seq<ParsedLine>, hasHeader: bool, isDouble: DoubleSyntax,
                        k: nat, calls: seq<Call>, next: Call)
    requires !HeaderUnparsable(lines, hasHeader)
    requires |calls| == 2 * k + 2 && |calls| < |ImportCalls(table, lines, hasHeader, isDouble)|
    requires ImportCalls(table, lines, hasHeader, isDouble)[..|calls| + 1] == calls + [next]
    ensures Import(table, lines, hasHeader, isDouble, true, Some(k)) == Run(InsertFailed, calls)
  {
    var all := ImportCalls(table, lines, hasHeader, isDouble);
    assert all[..|calls|] == (all[..|calls| + 1])[..|calls|];
  }

  /** No call failed: the run is complete and made every call of the import. */
  lemma CompletedRun(table: string, lines: seq<ParsedLine>, hasHeader: bool, isDouble: DoubleSyntax,
                     createSucceeds: bool, failingInsert: Option<nat>, calls: seq<Call>)
    requires !HeaderUnparsable(lines, hasHeader)
    requires calls == ImportCalls(table, lines, hasHeader, isDouble)
    requires calls != [] ==> createSucceeds
    requires failingInsert.None? || 2 * failingInsert.value + 1 >= |calls|
    ensures Import(table, lines, hasHeader, isDouble, createSucceeds, failingInsert) == Run(Completed, calls)
  {
  }

  // ---------------------------------------------------------------------
  // What the calls promise: one createTable first, rows in file order,
  // every report counting the rows inserted before it

  /** The rows a call inserts. */
  function CallRows(c: Call): seq<seq<string>>
  {
    if c.BatchInsert? then c.rows else []
  }

  /** Every row inserted by the calls, in call order. */
  function InsertedRows(calls: seq<Call>): seq<seq<string>>
  {
    if calls == [] then [] else CallRows(calls[0]) + InsertedRows(calls[1..])
  }

  /** The rows an import that runs to its end inserts. */
  function ExpectedInserted(d: seq<seq<string>>): seq<seq<string>>
  {
    if |d| <= SampleSize then d else d[..SampleSize + 1] + d[Min(|d|, 2 * SampleSize + 1)..]
  }

  /** Each report counts the rows inserted before it, starting from `base`, against `total`. */
  predicate ReportsFrom(calls: seq<Call>, total: int, base: int)
  {
    forall i :: 0 <= i < |calls| && calls[i].Progress? ==>
      calls[i].total == total && calls[i].processed == base + |InsertedRows(calls[..i])|
  }

  predicate NoCreate(calls: seq<Call>)
  {
    forall i :: 0 <= i < |calls| ==> !calls[i].CreateTable?
  }

  /**
   * The order the import promises: the table is created by the first call
   * and by no other, and each progress report gives the number of rows
   * inserted so far out of the file's record count.
   */
  predicate WellOrdered(calls: seq<Call>, total: int)
  {
    (calls != [] ==> calls[0].CreateTable? && NoCreate(calls[1..])) && ReportsFrom(calls, total, 0)
  }

  lemma {:induction false} InsertedRowsAppend(a: seq<Call>, b: seq<Call>)
    ensures InsertedRows(a + b) == InsertedRows(a) + InsertedRows(b)
  {
    if a != [] {
      assert (a + b)[1..] == a[1..] + b;
      InsertedRowsAppend(a[1..], b);
    } else {
      assert a + b == b;
    }
  }

  lemma InsertedRowsOne(c: Call)
    ensures InsertedRows([c]) == CallRows(c)
  {
    assert [c][1..] == [];
  }

  lemma ReportsAppend(a: seq<Call>, b: seq<Call>, total: int, base: int)
    requires ReportsFrom(a, total, base)
    requires ReportsFrom(b, total, base + |InsertedRows(a)|)
    ensures ReportsFrom(a + b, total, base)
  {
    forall i | |a| <= i < |a + b| && (a + b)[i].Progress?
      ensures (a + b)[i].total == total && (a + b)[i].processed == base + |InsertedRows((a + b)[..i])|
    {
      assert (a + b)[..i] == a + b[..i - |a|];
      InsertedRowsAppend(a, b[..i - |a|]);
    }
    forall i | 0 <= i < |a|
      ensures (a + b)[..i] == a[..i]
    {
    }
  }

  /** One batch and its report. */
  lemma OneBatch(table: string, rows: seq<seq<string>>, total: int, done: int)
    ensures var c := [BatchInsert(table, rows), Progress(total, done + |rows|)];
      InsertedRows(c) == rows && NoCreate(c) && ReportsFrom(c, total, done)
  {
    var c := [BatchInsert(table, rows), Progress(total, done + |rows|)];
    assert c[..1] == [c[0]] && c == [c[0]] + [c[1]];
    InsertedRowsOne(c[0]);
    InsertedRowsOne(c[1]);
    InsertedRowsAppend([c[0]], [c[1]]);
  }

  lemma NoCreateAppend(a: seq<Call>, b: seq<Call>)
    requires NoCreate(a) && NoCreate(b)
    ensures NoCreate(a + b)
  {
  }

  /** The first batch of `rows` and the batches of the rest. */
  lemma BatchCallsUnfold(table: string, rows: seq<seq<string>>, total: int, done: int)
    requires rows != []
    ensures var k := Min(|rows|, BatchSize);
      BatchCalls(table, rows, total, done) ==
        [BatchInsert(table, rows[..k]), Progress(total, done + k)] + BatchCalls(table, rows[k..], total, done + k)
  {
  }

  lemma {:induction false} BatchCallsRows(table: string, rows: seq<seq<string>>, total: int, done: int)
    ensures InsertedRows(BatchCalls(table, rows, total, done)) == rows
    decreases |rows|
  {
    if rows != [] {
      var k := Min(|rows|, BatchSize);
      var first := [BatchInsert(table, rows[..k]), Progress(total, done + k)];
      BatchCallsUnfold(table, rows, total, done);
      BatchCallsRows(table, rows[k..], total, done + k);
      OneBatch(table, rows[..k], total, done);
      InsertedRowsAppend(first, BatchCalls(table, rows[k..], total, done + k));
      assert rows[..k] + rows[k..] == rows;
    }
  }

  lemma {:induction false} BatchCallsNoCreate(table: string, rows: seq<seq<string>>, total: int, done: int)
    ensures NoCreate(BatchCalls(table, rows, total, done))
    decreases |rows|
  {
    if rows != [] {
      var k := Min(|rows|, BatchSize);
      var first := [BatchInsert(table, rows[..k]), Progress(total, done + k)];
      BatchCallsUnfold(table, rows, total, done);
      BatchCallsNoCreate(table, rows[k..], total, done + k);
      OneBatch(table, rows[..k], total, done);
      NoCreateAppend(first, BatchCalls(table, rows[k..], total, done + k));
    }
  }

  lemma {:induction false} BatchCallsReports(table: string, rows: seq<seq<string>>, total: int, done: int)
    ensures ReportsFrom(BatchCalls(table, rows, total, done), total, done)
    decreases |rows|
  {
    if rows != [] {
      var k := Min(|rows|, BatchSize);
      var first := [BatchInsert(table, rows[..k]), Progress(total, done + k)];
      BatchCallsUnfold(table, rows, total, done);
      BatchCallsReports(table, rows[k..], total, done + k);
      OneBatch(table, rows[..k], total, done);
      ReportsAppend(first, BatchCalls(table, rows[k..], total, done + k), total, done);
    }
  }

  /** The batches insert exactly their rows, create nothing, and count from `done`. */
  lemma BatchCallsInsert(table: string, rows: seq<seq<string>>, total: int, done: int)
    ensures var c := BatchCalls(table, rows, total, done);
      InsertedRows(c) == rows && NoCreate(c) && ReportsFrom(c, total, done)
  {
    BatchCallsRows(table, rows, total, done);
    BatchCallsNoCreate(table, rows, total, done);
    BatchCallsReports(table, rows, total, done);
  }

  lemma CreationCallsInsert(table: string, names: seq<string>, samples: seq<seq<string>>,
                            isDouble: DoubleSyntax, total: int)
    ensures var c := CreationCalls(table, names, samples, isDouble, total, 0);
      InsertedRows(c) == samples && WellOrdered(c, total)
  {
    var c0 := CreateTable(table, names, ColumnTypes(samples, |names|, isDouble));
    var b := [BatchInsert(table, samples), Progress(total, |samples|)];
    assert CreationCalls(table, names, samples, isDouble, total, 0) == [c0] + b;
    OneBatch(table, samples, total, 0);
    InsertedRowsOne(c0);
    WellOrderedAppend([c0], b, total);
    InsertedRowsAppend([c0], b);
  }

  /**
   * The calls of an import that runs to its end: the table is created
   * first and once, every report counts the rows inserted so far, and the
   * rows inserted are the data rows in file order, except that the
   * SampleSize rows after row SampleSize + 1 are never inserted.
   */
  lemma ImportCallsOrder(table: string, lines: seq<ParsedLine>, hasHeader: bool, isDouble: DoubleSyntax)
    ensures var calls := ImportCalls(table, lines, hasHeader, isDouble);
      WellOrdered(calls, TotalRecords(lines, hasHeader)) &&
      InsertedRows(calls) == ExpectedInserted(DataRows(lines, hasHeader))
  {
    var d := DataRows(lines, hasHeader);
    var total := TotalRecords(lines, hasHeader);
    if d == [] {
    } else if |d| <= SampleSize {
      CreationCallsInsert(table, TableHeaders(lines, hasHeader, |d[0]|), d, isDouble, total);
    } else {
      var head := HeadCalls(table, lines, hasHeader, isDouble, d);
      var rest := BatchCalls(table, Committed(d), total, SampleSize);
      CreationCallsInsert(table, TableHeaders(lines, hasHeader, |d[SampleSize]|), d[..SampleSize], isDouble, total);
      BatchCallsInsert(table, Committed(d), total, SampleSize);
      WellOrderedAppend(head, rest, total);
      InsertedRowsAppend(head, rest);
      CommittedIsExpected(d);
    }
  }

  /** Calls that create nothing and count on from a well-ordered start keep the order. */
  lemma WellOrderedAppend(head: seq<Call>, rest: seq<Call>, total: int)
    requires head != [] && WellOrdered(head, total)
    requires NoCreate(rest) && ReportsFrom(rest, total, |InsertedRows(head)|)
    ensures WellOrdered(head + rest, total)
  {
    ReportsAppend(head, rest, total, 0);
    assert (head + rest)[1..] == head[1..] + rest;
    NoCreateAppend(head[1..], rest);
  }

  /** The samples followed by the committed rows are the rows a complete import inserts. */
  lemma CommittedIsExpected(d: seq<seq<string>>)
    requires |d| > SampleSize
    ensures d[..SampleSize] + Committed(d) == ExpectedInserted(d)
  {
    assert d[..SampleSize] + [d[SampleSize]] == d[..SampleSize + 1];
  }

  /** The order holds of every prefix of the calls. */
  lemma WellOrderedPrefix(calls: seq<Call>, total: int, n: nat)
    requires WellOrdered(calls, total) && n <= |calls|
    ensures WellOrdered(calls[..n], total)
  {
    forall i | 0 <= i < n ensures calls[..n][..i] == calls[..i] {
    }
    if n > 0 {
      assert calls[..n][1..] == calls[1..][..n - 1];
    }
  }

  /**
   * Whichever way an import ends, its calls keep that order, and the rows
   * it inserted begin the rows a complete import inserts.
   */
  lemma ImportRunOrder(table: string, lines: seq<ParsedLine>, hasHeader: bool, isDouble: DoubleSyntax,
                       createSucceeds: bool, failingInsert: Option<nat>)
    ensures var run := Import(table, lines, hasHeader, isDouble, createSucceeds, failingInsert);
      var expected := ExpectedInserted(DataRows(lines, hasHeader));
      var inserted := InsertedRows(run.calls);
      WellOrdered(run.calls, TotalRecords(lines, hasHeader)) &&
      |inserted| <= |expected| && expected[..|inserted|] == inserted
  {
    var all := ImportCalls(table, lines, hasHeader, isDouble);
    var run := Import(table, lines, hasHeader, isDouble, createSucceeds, failingInsert);
    ImportCallsOrder(table, lines, hasHeader, isDouble);
    RunIsPrefix(table, lines, hasHeader, isDouble, createSucceeds, failingInsert);
    var n := |run.calls|;
    WellOrderedPrefix(all, TotalRecords(lines, hasHeader), n);
    InsertedRowsPrefix(all, n);
  }

  /** A run makes a prefix of the calls of a complete import. */
  lemma RunIsPrefix(table: string, lines: seq<ParsedLine>, hasHeader: bool, isDouble: DoubleSyntax,
                    createSucceeds: bool, failingInsert: Option<nat>)
    ensures var run := Import(table, lines, hasHeader, isDouble, createSucceeds, failingInsert);
      var all := ImportCalls(table, lines, hasHeader, isDouble);
      |run.calls| <= |all| && run.calls == all[..|run.calls|]
  {
  }

  /** The rows inserted by a prefix of the calls begin the rows all of them insert. */
  lemma InsertedRowsPrefix(calls: seq<Call>, n: nat)
    requires n <= |calls|
    ensures var r := InsertedRows(calls[..n]);
      |r| <= |InsertedRows(calls)| && InsertedRows(calls)[..|r|] == r
  {
    assert calls == calls[..n] + calls[n..];
    InsertedRowsAppend(calls[..n], calls[n..]);
  }

  /** Progress reports never go down. */
  lemma ReportsNonDecreasing(calls: seq<Call>, total: int, i: nat, j: nat)
    requires WellOrdered(calls, total)
    requires i < j < |calls| && calls[i].Progress? && calls[j].Progress?
    ensures calls[i].processed <= calls[j].processed
  {
    assert calls[..j] == calls[..i] + calls[i..j];
    InsertedRowsAppend(calls[..i], calls[i..j]);
  }

  /** The processed counts of the progress reports, in order. */
  function Reports(calls: seq<Call>): seq<int>
  {
    if calls == [] then []
    else (if calls[0].Progress? then [calls[0].processed] else []) + Reports(calls[1..])
  }

  /**
   * A file of 2500 data rows reports 1000 and then 1500: the rows that
   * refill the sample list after the table is created are not inserted.
   */
  lemma ReportsOfTwoAndAHalfThousandRows(table: string, lines: seq<ParsedLine>, hasHeader: bool,
                                          isDouble: DoubleSyntax)
    requires |DataRows(lines, hasHeader)| == 2500
    ensures Reports(ImportCalls(table, lines, hasHeader, isDouble)) == [1000, 1500]
  {
    var d := DataRows(lines, hasHeader);
    var total := TotalRecords(lines, hasHeader);
    var head := HeadCalls(table, lines, hasHeader, isDouble, d);
    var b := Committed(d);
    assert |b| == 500;
    BatchCallsSingle(table, b, total, SampleSize);
    var calls := head + [BatchInsert(table, b), Progress(total, 1500)];
    assert calls == [head[0]] + ([head[1]] + ([head[2]] + ([calls[3]] + [calls[4]])));
    ReportsCons(head[0], [head[1]] + ([head[2]] + ([calls[3]] + [calls[4]])));
    ReportsCons(head[1], [head[2]] + ([calls[3]] + [calls[4]]));
    ReportsCons(head[2], [calls[3]] + [calls[4]]);
    ReportsCons(calls[3], [calls[4]]);
    ReportsCons(calls[4], []);
  }

  lemma ReportsCons(c: Call, rest: seq<Call>)
    ensures Reports([c] + rest) == (if c.Progress? then [c.processed] else []) + Reports(rest)
  {
    assert ([c] + rest)[1..] == rest;
  }
}
