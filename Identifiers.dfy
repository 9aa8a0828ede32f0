/**
 * Identifier escaping of DOperator: a table or column name is quoted only
 * when its upper-case form is one of SQLite's reserved words.
 */
module Identifiers {
  import opened Strings

  /**
   * SQLite's reserved words in upper case, the 124 that DOperator lists,
   * in its order. They are written as six runs by initial letter only so
   * that a proof about every word can go one run at a time.
   */
  function ReservedAtoB(): seq<string> {
 [
    "ABORT", "ACTION", "ADD", "AFTER", "ALL", "ALTER", "ANALYZE", "AND", "AS",
    "ASC", "ATTACH", "AUTOINCREMENT", "BEFORE", "BEGIN", "BETWEEN", "BY"
  ] }
  function ReservedC(): seq<string> {
 [
    "CASCADE", "CASE", "CAST", "CHECK", "COLLATE", "COLUMN", "COMMIT",
    "CONFLICT", "CONSTRAINT", "CREATE", "CROSS", "CURRENT_DATE",
    "CURRENT_TIME", "CURRENT_TIMESTAMP"
  ] }
  function ReservedDtoH(): seq<string> {
 [
    "DATABASE", "DEFAULT", "DEFERRABLE", "DEFERRED", "DELETE", "DESC",
    "DETACH", "DISTINCT", "DROP", "EACH", "ELSE", "END", "ESCAPE", "EXCEPT",
    "EXCLUSIVE", "EXISTS", "EXPLAIN", "FAIL", "FOR", "FOREIGN", "FROM", "FULL",
    "GLOB", "GROUP", "HAVING"
  ] }
  function ReservedItoN(): seq<string> {
 [
    "IF", "IGNORE", "IMMEDIATE", "IN", "INDEX", "INDEXED", "INITIALLY",
    "INNER", "INSERT", "INSTEAD", "INTERSECT", "INTO", "IS", "ISNULL", "JOIN",
    "KEY", "LEFT", "LIKE", "LIMIT", "MATCH", "NATURAL", "NO", "NOT", "NOTNULL",
    "NULL"
  ] }
  function ReservedOtoR(): seq<string> {
 [
    "OF", "OFFSET", "ON", "OR", "ORDER", "OUTER", "PLAN", "PRAGMA", "PRIMARY",
    "QUERY", "RAISE", "RECURSIVE", "REFERENCES", "REGEXP", "REINDEX",
    "RELEASE", "RENAME", "REPLACE", "RESTRICT", "RIGHT", "ROLLBACK", "ROW"
  ] }
  function ReservedStoW(): seq<string> {
 [
    "SAVEPOINT", "SELECT", "SET", "TABLE", "TEMP", "TEMPORARY", "THEN", "TO",
    "TRANSACTION", "TRIGGER", "UNION", "UNIQUE", "UPDATE", "USING", "VACUUM",
    "VALUES", "VIEW", "VIRTUAL", "WHEN", "WHERE", "WITH", "WITHOUT"
  ] }
  function ReservedWords(): seq<string> {
    ReservedAtoB() + ReservedC() + ReservedDtoH() + ReservedItoN() + ReservedOtoR() + ReservedStoW() }

  /** Set membership, looked up one word at a time. */
  predicate Contains(words: seq<string>, w: string)
  {
    words != [] && (words[0] == w || Contains(words[1..], w))
  }

  lemma {:induction false} ContainsIsMembership(words: seq<string>, w: string)
    ensures Contains(words, w) <==> w in words
  {
    if words != [] {
      ContainsIsMembership(words[1..], w);
      assert words == [words[0]] + words[1..];
    }
  }

  /** SQL_RESERVED_WORDS.contains(name.toUpperCase()). */
  predicate IsReserved(name: string)
  {
    Contains(ReservedWords(), ToUpper(name))
  }

  /**
   * The shape every reserved word has: it does not begin with a double
   * quote, and it has no underscore at index 6 (so no `column_<n>` is one).
   */
  predicate WordShape(w: string)
  {
    w != [] && w[0] != '"' && (|w| > 6 ==> w[6] != '_')
  }

  lemma AtoBShape(w: string)
    requires w in ReservedAtoB()
    ensures WordShape(w)
  {
  }

  lemma CShape(w: string)
    requires w in ReservedC()
    ensures WordShape(w)
  {
  }

  lemma DtoHShape(w: string)
    requires w in ReservedDtoH()
    ensures WordShape(w)
  {
  }

  lemma ItoNShape(w: string)
    requires w in ReservedItoN()
    ensures WordShape(w)
  {
  }

  lemma OtoRShape(w: string)
    requires w in ReservedOtoR()
    ensures WordShape(w)
  {
  }

  lemma StoWShape(w: string)
    requires w in ReservedStoW()
    ensures WordShape(w)
  {
  }

  lemma ReservedWordShape(w: string)
    requires w in ReservedWords()
    ensures WordShape(w)
  {
    assert w in ReservedAtoB() || w in ReservedC() || w in ReservedDtoH() || w in ReservedItoN() || w in ReservedOtoR() || w in ReservedStoW();
    if w in ReservedAtoB() { AtoBShape(w); }
    else if w in ReservedC() { CShape(w); }
    else if w in ReservedDtoH() { DtoHShape(w); }
    else if w in ReservedItoN() { ItoNShape(w); }
    else if w in ReservedOtoR() { OtoRShape(w); }
    else { StoWShape(w); }
  }

  /**
   * escapeColumnName: a reserved word comes back between double quotes with
   * its own double quotes doubled; every other name comes back as it is.
   */
  function EscapeColumnName(name: string): string
  {
    if IsReserved(name) then "\"" + DoubleQuotes(name) + "\"" else name
  }

  /** Escaping changes a name exactly when it is reserved. */
  lemma EscapeChangesOnlyReserved(name: string)
    ensures EscapeColumnName(name) == name <==> !IsReserved(name)
  {
    if IsReserved(name) {
      assert |EscapeColumnName(name)| > |name|;
    }
  }

  /** A quoted name can be read back: strip the outer quotes, undouble the inner ones. */
  lemma EscapeRoundTrip(name: string)
    requires IsReserved(name)
    ensures var r := EscapeColumnName(name);
      |r| >= 2 && r[0] == '"' && r[|r| - 1] == '"' && Undouble(r[1..|r| - 1]) == name
  {
    var r := EscapeColumnName(name);
    assert r[1..|r| - 1] == DoubleQuotes(name);
    UndoubleDoubleQuotes(name);
  }

  /** A name that starts with a double quote is never a reserved word. */
  lemma QuotedIsNotReserved(s: string)
    requires s != [] && s[0] == '"'
    ensures !IsReserved(s)
  {
    ContainsIsMembership(ReservedWords(), ToUpper(s));
    if ToUpper(s) in ReservedWords() {
      ReservedWordShape(ToUpper(s));
    }
  }

  /** Escaping twice is escaping once. */
  lemma EscapeIdempotent(name: string)
    ensures EscapeColumnName(EscapeColumnName(name)) == EscapeColumnName(name)
  {
    var r := EscapeColumnName(name);
    if IsReserved(name) {
      QuotedIsNotReserved(r);
    }
  }

  /** Escaping adds only double quotes: no other character appears that was not there. */
  lemma EscapeAddsOnlyQuotes(c: char, name: string)
    requires c != '"' && c !in name
    ensures c !in EscapeColumnName(name)
  {
    DoubleQuotesKeepsOtherChars(c, name);
  }
}
