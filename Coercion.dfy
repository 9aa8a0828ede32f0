/**
 * The value DOperator binds for one text field of a row, chosen by the
 * declared type of the column (batchInsert and insert).
 */
module Coercion {
  import opened Strings

  /** A bound statement parameter; a REAL keeps the text Double.parseDouble accepted. */
  datatype SqlValue =
    | Null
    | IntValue(n: int)
    | RealValue(text: string)
    | BoolValue(b: bool)
    | TextValue(s: string)

  /** Double.parseDouble's syntax is not modelled; it is given as a predicate. */
  type DoubleSyntax = string -> bool

  predicate IsIntegerType(t: string) { ToUpper(t) == "INTEGER" || ToUpper(t) == "INT" }
  predicate IsRealType(t: string) { ToUpper(t) == "REAL" || ToUpper(t) == "FLOAT" || ToUpper(t) == "DOUBLE" }
  predicate IsBooleanType(t: string) { ToUpper(t) == "BOOLEAN" }

  /** How the four type names the importer declares are classified. */
  lemma DeclaredTypeNames()
    ensures IsIntegerType("INTEGER") && !IsRealType("INTEGER")
    ensures IsRealType("REAL") && !IsIntegerType("REAL")
    ensures IsBooleanType("BOOLEAN") && !IsIntegerType("BOOLEAN") && !IsRealType("BOOLEAN")
    ensures !IsIntegerType("TEXT") && !IsRealType("TEXT") && !IsBooleanType("TEXT")
  {
    ToUpperOfUpper("INTEGER");
    ToUpperOfUpper("REAL");
    ToUpperOfUpper("BOOLEAN");
    ToUpperOfUpper("TEXT");
  }

  /** The characters batchInsert removes from an `annotations` column. */
  const AnnotationChars: set<char> := {'{', '}', '\''}

  /**
   * The value bound for non-blank text `v` in a column named `name` of
   * declared type `colType`. `stripAnnotations` is true for batchInsert,
   * which cleans an `annotations` column, and false for insert, which does not.
   */
  function Coerce(v: string, name: string, colType: string, isDouble: DoubleSyntax,
                  stripAnnotations: bool): (r: SqlValue)
    ensures r.Null? <==>
      (IsIntegerType(colType) && ParseInt(v).None?) ||
      (IsRealType(colType) && !isDouble(v))
    ensures r.IntValue? ==> IsIntegerType(colType) && InInt32(r.n) && ParseInt(v) == Some(r.n)
    ensures r.BoolValue? ==> IsBooleanType(colType) && (r.b <==> EqualsIgnoreCase(v, "true"))
    ensures IsIntegerType(colType) && ParseInt(v).Some? ==> r == IntValue(ParseInt(v).value)
    ensures IsRealType(colType) && isDouble(v) ==> r == RealValue(v)
    ensures r.RealValue? ==> IsRealType(colType) && r.text == v
    ensures r.TextValue? ==> !IsIntegerType(colType) && !IsRealType(colType) && !IsBooleanType(colType)
    ensures r.TextValue? ==>
      r.s == (if stripAnnotations && EqualsIgnoreCase(name, "annotations") then RemoveChars(v, AnnotationChars) else v)
  {
    if IsIntegerType(colType) then
      match ParseInt(v)
      case Some(n) => IntValue(n)
      case None => Null
    else if IsRealType(colType) then
      if isDouble(v) then RealValue(v) else Null
    else if IsBooleanType(colType) then
      BoolValue(EqualsIgnoreCase(v, "true"))
    else if stripAnnotations && EqualsIgnoreCase(name, "annotations") then
      TextValue(RemoveChars(v, AnnotationChars))
    else
      TextValue(v)
  }

  /**
   * The value bound for field `i` of `row`: a missing or blank field is
   * NULL, any other field is trimmed and coerced; a failed number parse
   * makes only this field NULL.
   */
  function FieldValue(row: seq<string>, i: nat, name: string, colType: string,
                      isDouble: DoubleSyntax, stripAnnotations: bool): (r: SqlValue)
    ensures r.Null? <==>
      i >= |row| || Trim(row[i]) == "" ||
      (IsIntegerType(colType) && ParseInt(Trim(row[i])).None?) ||
      (IsRealType(colType) && !isDouble(Trim(row[i])))
    ensures i < |row| && Trim(row[i]) != "" && IsBooleanType(colType) ==>
      r == BoolValue(EqualsIgnoreCase(Trim(row[i]), "true"))
  {
    if i >= |row| then Null
    else
      var v := Trim(row[i]);
      if v == [] then Null else Coerce(v, name, colType, isDouble, stripAnnotations)
  }

  /** A text column that is not `annotations` stores exactly the trimmed field. */
  lemma TextFieldIsTrimmedText(row: seq<string>, i: nat, name: string, colType: string,
                               isDouble: DoubleSyntax, strip: bool)
    requires i < |row| && Trim(row[i]) != ""
    requires !IsIntegerType(colType) && !IsRealType(colType) && !IsBooleanType(colType)
    requires !strip || !EqualsIgnoreCase(name, "annotations")
    ensures FieldValue(row, i, name, colType, isDouble, strip) == TextValue(Trim(row[i]))
  {
  }

  /**
   * Under batchInsert, a text column named `annotations` in any case stores
   * the trimmed field with every `{`, `}` and `'` removed and every other
   * character kept, as many times as it occurs.
   */
  lemma AnnotationsFieldIsCleaned(row: seq<string>, i: nat, name: string, colType: string, isDouble: DoubleSyntax)
    requires i < |row| && Trim(row[i]) != ""
    requires !IsIntegerType(colType) && !IsRealType(colType) && !IsBooleanType(colType)
    requires EqualsIgnoreCase(name, "annotations")
    ensures FieldValue(row, i, name, colType, isDouble, true).TextValue?
    ensures var cleaned := FieldValue(row, i, name, colType, isDouble, true).s;
      (forall c :: c in AnnotationChars ==> Count(c, cleaned) == 0) &&
      (forall c :: c !in AnnotationChars ==> Count(c, cleaned) == Count(c, Trim(row[i])))
  {
    var cleaned := RemoveChars(Trim(row[i]), AnnotationChars);
    forall c | c in AnnotationChars ensures Count(c, cleaned) == 0 {
      CountAbsent(c, cleaned);
    }
  }

  /** An integer printed by Integer.toString is stored back as that integer. */
  lemma IntegerFieldRoundTrip(n: int, name: string, colType: string, isDouble: DoubleSyntax, strip: bool)
    requires InInt32(n) && IsIntegerType(colType)
    ensures FieldValue([IntToString(n)], 0, name, colType, isDouble, strip) == IntValue(n)
  {
    ParseIntOfIntToString(n);
    var s := IntToString(n);
    assert s != [] && !IsTrimmed(s[0]) && !IsTrimmed(s[|s| - 1]);
    TrimOfUntrimmed(s);
  }
}
