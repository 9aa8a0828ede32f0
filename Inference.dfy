/**
 * TSVImporter's column type inference over the sampled rows, and the
 * header names it creates the table with.
 */
module Inference {
  import opened Strings
  import opened Identifiers
  import opened Coercion

  // ---------------------------------------------------------------------
  // inferTypeForColumn / inferColumnTypes

  /** A field the inference looks at: the row has it and it is not blank once trimmed. */
  predicate Present(row: seq<string>, col: nat)
  {
    col < |row| && Trim(row[col]) != ""
  }

  /** `v.equalsIgnoreCase("true") || v.equalsIgnoreCase("false")`. */
  predicate IsBooleanText(v: string)
  {
    ToUpper(v) == "TRUE" || ToUpper(v) == "FALSE"
  }

  /** The field of `row` at `col` is missing, blank, or accepted by Integer.parseInt. */
  predicate IntegerField(row: seq<string>, col: nat)
  {
    Present(row, col) ==> ParseInt(Trim(row[col])).Some?
  }

  /** The field is missing, blank, or accepted by Double.parseDouble. */
  predicate RealField(row: seq<string>, col: nat, isDouble: DoubleSyntax)
  {
    Present(row, col) ==> isDouble(Trim(row[col]))
  }

  /** The field is missing, blank, or `true`/`false` in some case. */
  predicate BooleanField(row: seq<string>, col: nat)
  {
    Present(row, col) ==> IsBooleanText(Trim(row[col]))
  }

  /** Each flag of inferTypeForColumn after the first `n` samples. */
  predicate AllIntegers(samples: seq<seq<string>>, n: nat, col: nat)
    requires n <= |samples|
  {
    forall r :: 0 <= r < n ==> IntegerField(samples[r], col)
  }

  predicate AllReals(samples: seq<seq<string>>, n: nat, col: nat, isDouble: DoubleSyntax)
    requires n <= |samples|
  {
    forall r :: 0 <= r < n ==> RealField(samples[r], col, isDouble)
  }

  predicate AllBooleans(samples: seq<seq<string>>, n: nat, col: nat)
    requires n <= |samples|
  {
    forall r :: 0 <= r < n ==> BooleanField(samples[r], col)
  }

  /**
   * The declared type of a column: the first of INTEGER, REAL, BOOLEAN
   * that every present sampled field satisfies, TEXT otherwise.
   */
  function ColumnType(samples: seq<seq<string>>, col: nat, isDouble: DoubleSyntax): string
  {
    if AllIntegers(samples, |samples|, col) then "INTEGER"
    else if AllReals(samples, |samples|, col, isDouble) then "REAL"
    else if AllBooleans(samples, |samples|, col) then "BOOLEAN"
    else "TEXT"
  }

  /**
   * inferTypeForColumn: one pass over the samples that clears a flag at the
   * first field refuting it, and stops early once all three are cleared.
   */
  method InferTypeForColumn(samples: seq<seq<string>>, col: nat, isDouble: DoubleSyntax)
    returns (t: string)
    ensures t == ColumnType(samples, col, isDouble)
  {
    var isInteger, isReal, isBoolean := true, true, true;
    var k := 0;
    while k < |samples|
      invariant 0 <= k <= |samples|
      invariant isInteger == AllIntegers(samples, k, col)
      invariant isReal == AllReals(samples, k, col, isDouble)
      invariant isBoolean == AllBooleans(samples, k, col)
    {
      var row := samples[k];
      FlagsStep(samples, k, col, isDouble);
      if col < |row| {
        var value := Trim(row[col]);
        if value != [] {
          if isInteger && ParseInt(value).None? {
            isInteger := false;
          }
          if isReal && !isDouble(value) {
            isReal := false;
          }
          if isBoolean && !IsBooleanText(value) {
            isBoolean := false;
          }
          if !isInteger && !isReal && !isBoolean {
            break;
          }
        }
      }
      k := k + 1;
    }
    if isInteger {
      t := "INTEGER";
    } else if isReal {
      t := "REAL";
    } else if isBoolean {
      t := "BOOLEAN";
    } else {
      t := "TEXT";
    }
  }

  /** How one more sample moves each flag. */
  lemma FlagsStep(samples: seq<seq<string>>, k: nat, col: nat, isDouble: DoubleSyntax)
    requires k < |samples|
    ensures AllIntegers(samples, k + 1, col) == (AllIntegers(samples, k, col) && IntegerField(samples[k], col))
    ensures AllReals(samples, k + 1, col, isDouble) ==
            (AllReals(samples, k, col, isDouble) && RealField(samples[k], col, isDouble))
    ensures AllBooleans(samples, k + 1, col) == (AllBooleans(samples, k, col) && BooleanField(samples[k], col))
  {
  }

  function ColumnTypes(samples: seq<seq<string>>, columnCount: nat, isDouble: DoubleSyntax)
    : (types: seq<string>)
    ensures |types| == columnCount
  {
    seq(columnCount, col requires 0 <= col < columnCount => ColumnType(samples, col, isDouble))
  }

  /** inferColumnTypes: one inferred type per column, in column order. */
  method InferColumnTypes(samples: seq<seq<string>>, columnCount: nat, isDouble: DoubleSyntax)
    returns (types: array<string>)
    ensures fresh(types)
    ensures types[..] == ColumnTypes(samples, columnCount, isDouble)
  {
    types := new string[columnCount];
    var col := 0;
    while col < columnCount
      invariant 0 <= col <= columnCount
      invariant forall c :: 0 <= c < col ==> types[c] == ColumnType(samples, c, isDouble)
    {
      types[col] := InferTypeForColumn(samples, col, isDouble);
      col := col + 1;
    }
  }

  /**
   * A column with no present field at all is declared INTEGER: every
   * flag survives a pass that never clears one.
   */
  lemma EmptyColumnIsInteger(samples: seq<seq<string>>, col: nat, isDouble: DoubleSyntax)
    requires forall r :: 0 <= r < |samples| ==> !Present(samples[r], col)
    ensures ColumnType(samples, col, isDouble) == "INTEGER"
  {
  }

  /** One more sampled row can only clear flags, never set one again. */
  lemma MoreRowsOnlyDemote(samples: seq<seq<string>>, row: seq<string>, col: nat, isDouble: DoubleSyntax)
    ensures AllIntegers(samples + [row], |samples| + 1, col) ==> AllIntegers(samples, |samples|, col)
    ensures AllReals(samples + [row], |samples| + 1, col, isDouble) ==> AllReals(samples, |samples|, col, isDouble)
    ensures AllBooleans(samples + [row], |samples| + 1, col) ==> AllBooleans(samples, |samples|, col)
  {
    assert forall r :: 0 <= r < |samples| ==> (samples + [row])[r] == samples[r];
  }

  /**
   * The inferred type never turns a sampled value into NULL: binding any
   * sampled row under the inferred type yields NULL exactly for the fields
   * that are missing or blank.
   */
  lemma InferredTypeKeepsSampledValues(samples: seq<seq<string>>, r: nat, col: nat, name: string,
                                       isDouble: DoubleSyntax, strip: bool)
    requires r < |samples|
    ensures FieldValue(samples[r], col, name, ColumnType(samples, col, isDouble), isDouble, strip).Null?
            <==> !Present(samples[r], col)
  {
    DeclaredTypeNames();
    var row := samples[r];
    if Present(row, col) {
      var v := Trim(row[col]);
      if AllIntegers(samples, |samples|, col) {
        assert ParseInt(v).Some?;
      } else if AllReals(samples, |samples|, col, isDouble) {
        assert isDouble(v);
      }
    }
  }

  // ---------------------------------------------------------------------
  // generateDefaultHeaders / processHeaders

  const DefaultPrefix: string := "column_"

  /** The names of a header-less file: column_1, column_2, ... */
  function DefaultHeaders(columnCount: nat): (names: seq<string>)
    ensures |names| == columnCount
  {
    seq(columnCount, i requires 0 <= i < columnCount => DefaultPrefix + NatToString(i + 1))
  }

  method GenerateDefaultHeaders(columnCount: nat) returns (headers: array<string>)
    ensures fresh(headers)
    ensures headers[..] == DefaultHeaders(columnCount)
  {
    headers := new string[columnCount];
    var i := 0;
    while i < columnCount
      invariant 0 <= i <= columnCount
      invariant forall j :: 0 <= j < i ==> headers[j] == DefaultPrefix + NatToString(j + 1)
    {
      headers[i] := "column_" + NatToString(i + 1);
      i := i + 1;
    }
  }

  /** Default names are pairwise distinct. */
  lemma DefaultHeadersDistinct(columnCount: nat, i: nat, j: nat)
    requires i < columnCount && j < columnCount && i != j
    ensures DefaultHeaders(columnCount)[i] != DefaultHeaders(columnCount)[j]
  {
    var a := DefaultHeaders(columnCount)[i];
    var b := DefaultHeaders(columnCount)[j];
    if a == b {
      assert a[|DefaultPrefix|..] == NatToString(i + 1);
      assert b[|DefaultPrefix|..] == NatToString(j + 1);
      NatToStringInjective(i + 1, j + 1);
      assert false;
    }
  }

  /** The name of a header after processHeaders: trimmed, then escaped. */
  function ProcessedName(h: string): string
  {
    EscapeColumnName(Trim(h))
  }

  function ProcessedHeaders(headers: seq<string>): (names: seq<string>)
    ensures |names| == |headers|
  {
    seq(|headers|, i requires 0 <= i < |headers| => ProcessedName(headers[i]))
  }

  /** processHeaders: replaces each header in place by its processed name. */
  method ProcessHeaders(headers: array<string>)
    modifies headers
    ensures headers[..] == ProcessedHeaders(old(headers[..]))
  {
    var i := 0;
    while i < headers.Length
      invariant 0 <= i <= headers.Length
      invariant forall j :: 0 <= j < i ==> headers[j] == ProcessedName(old(headers[j]))
      invariant forall j :: i <= j < headers.Length ==> headers[j] == old(headers[j])
    {
      ghost var name := old(headers[i]);
      headers[i] := EscapeColumnName(Trim(headers[i]));
      assert headers[i] == ProcessedName(name);
      i := i + 1;
    }
  }

  /** A processed name is a fixed point of processing. */
  lemma ProcessedNameIdempotent(h: string)
    ensures ProcessedName(ProcessedName(h)) == ProcessedName(h)
  {
    var t := Trim(h);
    var e := EscapeColumnName(t);
    if IsReserved(t) {
      EscapeRoundTrip(t);
      TrimOfUntrimmed(e);
    } else {
      TrimIdempotent(h);
    }
    EscapeIdempotent(t);
  }

  /** Processing headers twice, as importTSV does for a header line, is processing them once. */
  lemma ProcessHeadersIdempotent(headers: seq<string>)
    ensures ProcessedHeaders(ProcessedHeaders(headers)) == ProcessedHeaders(headers)
  {
    forall i | 0 <= i < |headers|
      ensures ProcessedHeaders(ProcessedHeaders(headers))[i] == ProcessedHeaders(headers)[i]
    {
      ProcessedNameIdempotent(headers[i]);
    }
  }

  /** Default names need no escaping: processing leaves them as they are. */
  lemma DefaultHeadersAreProcessed(columnCount: nat)
    ensures ProcessedHeaders(DefaultHeaders(columnCount)) == DefaultHeaders(columnCount)
  {
    var names := DefaultHeaders(columnCount);
    forall i | 0 <= i < columnCount ensures ProcessedName(names[i]) == names[i] {
      var h := names[i];
      var digits := NatToString(i + 1);
      assert h == DefaultPrefix + digits;
      assert h[0] == 'c' && h[|h| - 1] == digits[|digits| - 1];
      TrimOfUntrimmed(h);
      var u := ToUpper(h);
      assert u[6] == '_';
      ContainsIsMembership(ReservedWords(), u);
      if u in ReservedWords() {
        ReservedWordShape(u);
      }
    }
  }
}
