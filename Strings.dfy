/**
 * The handful of java.lang.String / Integer operations the tool relies on,
 * written out so that the rest of the model can reason about them:
 * ASCII case mapping, trim, quote doubling, join, split on a single
 * character, and decimal printing and parsing of integers.
 */
module Strings {

  datatype Option<T> = None | Some(value: T)

  const MinInt32: int := -0x8000_0000
  const MaxInt32: int := 0x7fff_ffff

  predicate InInt32(n: int) { MinInt32 <= n <= MaxInt32 }

  /** Math.min. */
  function Min(a: int, b: int): int { if a <= b then a else b }

  /** Java's two's-complement wrap-around of an `int` result. */
  function Wrap32(n: int): (r: int)
    ensures InInt32(r)
    ensures InInt32(n) ==> r == n
    ensures (r - n) % 0x1_0000_0000 == 0
  {
    (n - MinInt32) % 0x1_0000_0000 + MinInt32
  }

  // ---------------------------------------------------------------------
  // Characters

  predicate IsAsciiLower(c: char) { 'a' <= c <= 'z' }
  predicate IsAsciiUpper(c: char) { 'A' <= c <= 'Z' }
  predicate IsAsciiLetter(c: char) { IsAsciiLower(c) || IsAsciiUpper(c) }
  predicate IsAsciiDigit(c: char) { '0' <= c <= '9' }

  function UpperChar(c: char): char
  {
    if IsAsciiLower(c) then (c as int - 32) as char else c
  }

  function LowerChar(c: char): char
  {
    if IsAsciiUpper(c) then (c as int + 32) as char else c
  }

  function ToUpper(s: string): (r: string)
    ensures |r| == |s|
    ensures forall i :: 0 <= i < |s| ==> r[i] == UpperChar(s[i])
  {
    seq(|s|, i requires 0 <= i < |s| => UpperChar(s[i]))
  }

  function ToLower(s: string): (r: string)
    ensures |r| == |s|
    ensures forall i :: 0 <= i < |s| ==> r[i] == LowerChar(s[i])
  {
    seq(|s|, i requires 0 <= i < |s| => LowerChar(s[i]))
  }

  /** Text without lower-case letters is its own upper-case form. */
  lemma ToUpperOfUpper(s: string)
    requires forall i :: 0 <= i < |s| ==> !IsAsciiLower(s[i])
    ensures ToUpper(s) == s
  {
  }

  /** String.equalsIgnoreCase, with ASCII case folding. */
  predicate EqualsIgnoreCase(a: string, b: string)
  {
    ToUpper(a) == ToUpper(b)
  }

  // ---------------------------------------------------------------------
  // String.trim: strips every leading and trailing char whose code is <= ' '

  predicate IsTrimmed(c: char) { c <= ' ' }

  function TrimStart(s: string): string
  {
    if s != [] && IsTrimmed(s[0]) then TrimStart(s[1..]) else s
  }

  function TrimEnd(s: string): string
  {
    if s != [] && IsTrimmed(s[|s| - 1]) then TrimEnd(s[..|s| - 1]) else s
  }

  /** String.trim: drop leading, then trailing, chars up to ' '. */
  function Trim(s: string): string
  {
    TrimEnd(TrimStart(s))
  }

  /** TrimStart removes a prefix of trimmed chars and stops at the first other char. */
  lemma {:induction false} TrimStartShape(s: string)
    ensures |TrimStart(s)| <= |s| && TrimStart(s) == s[|s| - |TrimStart(s)|..]
    ensures forall i :: 0 <= i < |s| - |TrimStart(s)| ==> IsTrimmed(s[i])
    ensures TrimStart(s) == [] || !IsTrimmed(TrimStart(s)[0])
  {
    if s != [] && IsTrimmed(s[0]) {
      var r := s[1..];
      TrimStartShape(r);
      var t := TrimStart(r);
      assert TrimStart(s) == t;
      assert r[|r| - |t|..] == s[|s| - |t|..];
      forall i | 0 <= i < |s| - |t|
        ensures IsTrimmed(s[i])
      {
        if i > 0 {
          assert s[i] == r[i - 1];
        }
      }
    }
  }

  /** TrimEnd removes a suffix of trimmed chars and stops at the last other char. */
  lemma {:induction false} TrimEndShape(s: string)
    ensures |TrimEnd(s)| <= |s| && TrimEnd(s) == s[..|TrimEnd(s)|]
    ensures forall i :: |TrimEnd(s)| <= i < |s| ==> IsTrimmed(s[i])
    ensures TrimEnd(s) == [] || !IsTrimmed(TrimEnd(s)[|TrimEnd(s)| - 1])
  {
    if s != [] && IsTrimmed(s[|s| - 1]) {
      TrimEndShape(s[..|s| - 1]);
    }
  }

  /**
   * What trim returns: the slice s[lo..hi] between a run of trimmed chars
   * at each end, and it neither starts nor ends with a trimmed char.
   */
  lemma TrimShape(s: string) returns (lo: nat, hi: nat)
    ensures lo <= hi <= |s| && Trim(s) == s[lo..hi]
    ensures forall i :: 0 <= i < lo ==> IsTrimmed(s[i])
    ensures forall i :: hi <= i < |s| ==> IsTrimmed(s[i])
    ensures NoEdgeBlanks(Trim(s))
  {
    var t := TrimStart(s);
    TrimStartShape(s);
    TrimEndShape(t);
    lo := |s| - |t|;
    hi := lo + |TrimEnd(t)|;
    assert Trim(s) == s[lo..hi];
    if Trim(s) != [] {
      assert Trim(s)[0] == t[0];
    }
  }

  /** A string that neither starts nor ends with a trimmed char. */
  predicate NoEdgeBlanks(s: string)
  {
    s == [] || (!IsTrimmed(s[0]) && !IsTrimmed(s[|s| - 1]))
  }

  /** Trimming a string without edge blanks leaves it unchanged. */
  lemma TrimOfUntrimmed(s: string)
    requires NoEdgeBlanks(s)
    ensures Trim(s) == s
  {
  }

  lemma TrimIdempotent(s: string)
    ensures Trim(Trim(s)) == Trim(s)
  {
    var lo, hi := TrimShape(s);
    TrimOfUntrimmed(Trim(s));
  }

  // ---------------------------------------------------------------------
  // Quote doubling, shared by SQL identifiers and CSV cells

  /** s.replace("\"", "\"\""): every double quote written twice. */
  function DoubleQuotes(s: string): (r: string)
    ensures |r| >= |s|
    ensures '"' !in s ==> r == s
  {
    if s == [] then []
    else (if s[0] == '"' then "\"\"" else [s[0]]) + DoubleQuotes(s[1..])
  }

  lemma {:induction false} DoubleQuotesKeepsOtherChars(c: char, s: string)
    requires c != '"' && c !in s
    ensures c !in DoubleQuotes(s)
  {
    if s != [] {
      DoubleQuotesKeepsOtherChars(c, s[1..]);
    }
  }

  /** Reads back a doubled text: each `""` stands for one `"`. */
  function Undouble(s: string): string
  {
    if s == [] then []
    else if |s| >= 2 && s[0] == '"' && s[1] == '"' then "\"" + Undouble(s[2..])
    else [s[0]] + Undouble(s[1..])
  }

  lemma {:induction false} UndoubleDoubleQuotes(s: string)
    ensures Undouble(DoubleQuotes(s)) == s
  {
    if s != [] {
      UndoubleDoubleQuotes(s[1..]);
      if s[0] == '"' {
        assert DoubleQuotes(s) == "\"\"" + DoubleQuotes(s[1..]);
        assert (DoubleQuotes(s))[2..] == DoubleQuotes(s[1..]);
      } else {
        assert DoubleQuotes(s) == [s[0]] + DoubleQuotes(s[1..]);
        assert (DoubleQuotes(s))[1..] == DoubleQuotes(s[1..]);
      }
    }
  }

  /** Removes every char of `cs`, as s.replaceAll("[...]", "") does. */
  function RemoveChars(s: string, cs: set<char>): (r: string)
    ensures |r| <= |s|
    ensures forall i :: 0 <= i < |r| ==> r[i] !in cs
    ensures forall c :: c !in cs ==> Count(c, r) == Count(c, s)
  {
    if s == [] then []
    else
      var head, rest := if s[0] in cs then [] else [s[0]], RemoveChars(s[1..], cs);
      CountAppendAll(head, rest);
      head + rest
  }

  /** A single character is dropped when it is in `cs` and kept otherwise. */
  lemma RemoveCharsOfOne(c: char, cs: set<char>)
    ensures RemoveChars([c], cs) == if c in cs then [] else [c]
  {
    assert [c][1..] == [];
  }

  lemma {:induction false} RemoveCharsAppend(a: string, b: string, cs: set<char>)
    ensures RemoveChars(a + b, cs) == RemoveChars(a, cs) + RemoveChars(b, cs)
  {
    if a != [] {
      assert (a + b)[1..] == a[1..] + b;
      RemoveCharsAppend(a[1..], b, cs);
    } else {
      assert a + b == b;
    }
  }

  lemma {:induction false} RemoveCharsAbsent(s: string, cs: set<char>)
    requires forall i :: 0 <= i < |s| ==> s[i] !in cs
    ensures RemoveChars(s, cs) == s
  {
    if s != [] {
      RemoveCharsAbsent(s[1..], cs);
    }
  }


  function Count(c: char, s: string): nat
  {
    if s == [] then 0 else (if s[0] == c then 1 else 0) + Count(c, s[1..])
  }

  lemma CountAppendAll(a: string, b: string)
    ensures forall c :: Count(c, a + b) == Count(c, a) + Count(c, b)
  {
    forall c {
      CountAppend(c, a, b);
    }
  }

  lemma {:induction false} CountAppend(c: char, a: string, b: string)
    ensures Count(c, a + b) == Count(c, a) + Count(c, b)
  {
    if a == [] {
      assert a + b == b;
    } else {
      assert (a + b)[1..] == a[1..] + b;
      CountAppend(c, a[1..], b);
    }
  }

  lemma {:induction false} CountAbsent(c: char, s: string)
    requires c !in s
    ensures Count(c, s) == 0
  {
    if s != [] {
      CountAbsent(c, s[1..]);
    }
  }

  // ---------------------------------------------------------------------
  // Joining with a separator, the shape of every StringBuilder loop that
  // appends an item and then the separator unless it is the last item

  function Join(parts: seq<string>, sep: string): string
  {
    if |parts| == 0 then ""
    else if |parts| == 1 then parts[0]
    else Join(parts[..|parts| - 1], sep) + sep + parts[|parts| - 1]
  }

  lemma {:induction false} JoinCons(head: string, tail: seq<string>, sep: string)
    requires tail != []
    ensures Join([head] + tail, sep) == head + sep + Join(tail, sep)
  {
    var parts := [head] + tail;
    if |tail| == 1 {
      assert parts[..1] == [head];
    } else {
      assert parts[..|parts| - 1] == [head] + tail[..|tail| - 1];
      JoinCons(head, tail[..|tail| - 1], sep);
    }
  }

  lemma JoinSnoc(parts: seq<string>, last: string, sep: string)
    requires parts != []
    ensures Join(parts + [last], sep) == Join(parts, sep) + sep + last
  {
    assert (parts + [last])[..|parts|] == parts;
  }

  lemma ConcatAssoc(a: string, b: string, c: string)
    ensures a + (b + c) == a + b + c
  {
  }

  /** Extending a joined prefix by one more part. */
  lemma JoinPrefixStep(parts: seq<string>, k: nat, sep: string)
    requires 0 < k < |parts|
    ensures Join(parts[..k + 1], sep) == Join(parts[..k], sep) + sep + parts[k]
  {
    assert parts[..k + 1][..k] == parts[..k];
  }

  /** Joining parts that each hold one `c`, with a separator free of `c`. */
  lemma {:induction false} CountJoin(c: char, parts: seq<string>, sep: string)
    requires c !in sep
    requires forall i :: 0 <= i < |parts| ==> Count(c, parts[i]) == 1
    ensures Count(c, Join(parts, sep)) == |parts|
  {
    if |parts| > 1 {
      var init := parts[..|parts| - 1];
      var j := Join(init, sep);
      assert Join(parts, sep) == j + sep + parts[|parts| - 1];
      CountJoin(c, init, sep);
      CountAppend(c, j + sep, parts[|parts| - 1]);
      CountAppend(c, j, sep);
      CountAbsent(c, sep);
    }
  }

  /** A character in neither the parts nor the separator is not in the joined string. */
  lemma {:induction false} JoinAbsent(c: char, parts: seq<string>, sep: string)
    requires c !in sep
    requires forall i :: 0 <= i < |parts| ==> c !in parts[i]
    ensures c !in Join(parts, sep)
  {
    if |parts| > 1 {
      JoinAbsent(c, parts[..|parts| - 1], sep);
    }
  }

  /** Text free of `c` in front of `m` adds no occurrence. */
  lemma CountAfter(c: char, a: string, m: string)
    requires c !in a
    ensures Count(c, a + m) == Count(c, m)
  {
    CountAbsent(c, a);
    CountAppend(c, a, m);
  }

  /** Text free of `c` around `m` adds no occurrence. */
  lemma CountAround(c: char, a: string, m: string, b: string)
    requires c !in a && c !in b
    ensures Count(c, a + m + b) == Count(c, m)
  {
    CountAfter(c, a, m);
    CountAbsent(c, b);
    CountAppend(c, a + m, b);
  }

  /** One `c` between two texts free of it. */
  lemma CountOneMark(c: char, a: string, b: string)
    requires c !in a && c !in b
    ensures Count(c, a + [c] + b) == 1
  {
    CountAround(c, a, [c], b);
  }

  /** Two `c`s separated by texts free of it. */
  lemma CountTwoMarks(c: char, a: string, b: string, d: string)
    requires c !in a && c !in b && c !in d
    ensures Count(c, a + [c] + b + [c] + d) == 2
  {
    CountOneMark(c, a, b);
    CountOneMark(c, [], d);
    assert [] + [c] + d == [c] + d;
    assert a + [c] + b + [c] + d == (a + [c] + b) + ([c] + d);
    CountAppend(c, a + [c] + b, [c] + d);
  }

  // ---------------------------------------------------------------------
  // String.split(",") for a one-char separator that is not a regex
  // metacharacter: split at every occurrence, then drop trailing empty
  // strings; an input without the separator comes back as itself.

  /** Every piece between occurrences of `sep`, including empty ones. */
  function SplitAll(s: string, sep: char): (r: seq<string>)
    ensures |r| == Count(sep, s) + 1
    ensures forall i :: 0 <= i < |r| ==> sep !in r[i]
  {
    if s == [] then [""]
    else
      var rest := SplitAll(s[1..], sep);
      if s[0] == sep then [""] + rest
      else [[s[0]] + rest[0]] + rest[1..]
  }

  lemma {:induction false} JoinSplitAll(s: string, sep: char)
    ensures Join(SplitAll(s, sep), [sep]) == s
  {
    if s != [] {
      JoinSplitAll(s[1..], sep);
      JoinSplitStep(s, sep);
    }
  }

  /** One character more in front: the split of the rest, rejoined, extends to the whole string. */
  lemma {:induction false} JoinSplitStep(s: string, sep: char)
    requires s != [] && Join(SplitAll(s[1..], sep), [sep]) == s[1..]
    ensures Join(SplitAll(s, sep), [sep]) == s
  {
    var rest := SplitAll(s[1..], sep);
    var j := Join(rest, [sep]);
    if s[0] == sep {
      assert SplitAll(s, sep) == [""] + rest;
      JoinCons("", rest, [sep]);
      assert "" + [sep] + j == [s[0]] + s[1..];
    } else if |rest| == 1 {
      assert SplitAll(s, sep) == [[s[0]] + rest[0]];
      assert j == rest[0];
    } else {
      var tail := rest[1..];
      var jt := Join(tail, [sep]);
      assert SplitAll(s, sep) == [[s[0]] + rest[0]] + tail;
      assert [rest[0]] + tail == rest;
      JoinCons(rest[0], tail, [sep]);
      JoinCons([s[0]] + rest[0], tail, [sep]);
      assert [s[0]] + rest[0] + [sep] + jt == [s[0]] + (rest[0] + [sep] + jt);
    }
    assert [s[0]] + s[1..] == s;
  }

  function DropTrailingEmpty(parts: seq<string>): (r: seq<string>)
    ensures |r| <= |parts| && r == parts[..|r|]
    ensures r == [] || r[|r| - 1] != ""
    ensures forall i :: |r| <= i < |parts| ==> parts[i] == ""
  {
    if parts == [] || parts[|parts| - 1] != "" then parts
    else DropTrailingEmpty(parts[..|parts| - 1])
  }

  function JavaSplit(s: string, sep: char): (r: seq<string>)
    ensures forall i :: 0 <= i < |r| ==> sep !in r[i]
  {
    if sep !in s then [s] else DropTrailingEmpty(SplitAll(s, sep))
  }

  lemma {:induction false} SplitAllSingle(h: string, c: char)
    requires c !in h
    ensures SplitAll(h, c) == [h]
  {
    if h != [] {
      SplitAllSingle(h[1..], c);
      assert [h[0]] + h[1..] == h;
    }
  }

  lemma {:induction false} SplitAllPrefix(h: string, c: char, rest: string)
    requires c !in h
    ensures SplitAll(h + [c] + rest, c) == [h] + SplitAll(rest, c)
  {
    var s := h + [c] + rest;
    if h == [] {
      assert s == [c] + rest && s[1..] == rest;
    } else {
      assert s[1..] == h[1..] + [c] + rest;
      SplitAllPrefix(h[1..], c, rest);
      assert [h[0]] + h[1..] == h;
    }
  }

  /** Splitting joined parts that do not hold the separator gives back every part. */
  lemma {:induction false} SplitAllJoin(parts: seq<string>, c: char)
    requires parts != []
    requires forall i :: 0 <= i < |parts| ==> c !in parts[i]
    ensures SplitAll(Join(parts, [c]), c) == parts
  {
    if |parts| == 1 {
      SplitAllSingle(parts[0], c);
    } else {
      var t := parts[1..];
      assert [parts[0]] + t == parts;
      JoinCons(parts[0], t, [c]);
      SplitAllPrefix(parts[0], c, Join(t, [c]));
      SplitAllJoin(t, c);
    }
  }

  /**
   * String.split on a separator: parts without the separator, joined, and
   * split again come back as they were, provided the last is not empty
   * (split drops trailing empty strings).
   */
  lemma JavaSplitJoin(parts: seq<string>, c: char)
    requires parts != [] && parts[|parts| - 1] != ""
    requires forall i :: 0 <= i < |parts| ==> c !in parts[i]
    ensures JavaSplit(Join(parts, [c]), c) == parts
  {
    SplitAllJoin(parts, c);
    if |parts| > 1 {
      var j := Join(parts[..|parts| - 1], [c]);
      assert Join(parts, [c]) == j + [c] + parts[|parts| - 1];
      assert Join(parts, [c])[|j|] == c;
    }
  }

  /** A string holding a character above ' ' does not trim to nothing. */
  lemma TrimNotEmpty(s: string, i: nat)
    requires i < |s| && !IsTrimmed(s[i])
    ensures Trim(s) != ""
  {
    var lo, hi := TrimShape(s);
  }

  // ---------------------------------------------------------------------
  // Decimal integers: Integer.toString and Integer.parseInt (radix 10)

  function DigitChar(d: nat): (c: char)
    requires d < 10
    ensures IsAsciiDigit(c)
  {
    ('0' as int + d) as char
  }

  /**
   * The zero of every other run of ten decimal digits (Unicode category Nd)
   * in the Basic Multilingual Plane: fullwidth first, then Arabic-Indic,
   * Devanagari, Thai and the rest in code point order. A Java char is one UTF-16 unit, so digits outside that plane
   * arrive as surrogates, which are no digits.
   */
  const OtherDigitZeros: seq<int> := [
    0xFF10, 0x0660, 0x06F0, 0x07C0, 0x0966, 0x09E6, 0x0A66, 0x0AE6, 0x0B66, 0x0BE6, 0x0C66,
    0x0CE6, 0x0D66, 0x0DE6, 0x0E50, 0x0ED0, 0x0F20, 0x1040, 0x1090, 0x17E0, 0x1810,
    0x1946, 0x19D0, 0x1A80, 0x1A90, 0x1B50, 0x1BB0, 0x1C40, 0x1C50, 0xA620, 0xA8D0,
    0xA900, 0xA9D0, 0xA9F0, 0xAA50, 0xABF0]

  function DigitIn(n: int, zeros: seq<int>): (d: int)
    ensures -1 <= d <= 9
  {
    if zeros == [] then -1
    else if zeros[0] <= n < zeros[0] + 10 then n - zeros[0]
    else DigitIn(n, zeros[1..])
  }

  /**
   * Character.digit(c, 10), which Integer.parseInt reads each digit with:
   * the value of a decimal digit of any script, -1 for any other character.
   */
  function DecimalDigit(c: char): (d: int)
    ensures -1 <= d <= 9
    ensures IsAsciiDigit(c) ==> d == c as int - '0' as int
    ensures d >= 0 ==> !IsTrimmed(c) && c != '-' && c != '+'
  {
    if IsAsciiDigit(c) then c as int - '0' as int
    else if (c as int) < 0x0660 then -1
    else DigitIn(c as int, OtherDigitZeros)
  }

  function NatToString(n: nat): (r: string)
    ensures r != []
    ensures forall i :: 0 <= i < |r| ==> IsAsciiDigit(r[i])
  {
    if n < 10 then [DigitChar(n)] else NatToString(n / 10) + [DigitChar(n % 10)]
  }

  function IntToString(n: int): string
  {
    if n < 0 then "-" + NatToString(-n) else NatToString(n)
  }

  predicate AllDigits(s: string)
  {
    forall i :: 0 <= i < |s| ==> DecimalDigit(s[i]) >= 0
  }

  function DigitsValue(s: string): nat
    requires AllDigits(s)
  {
    if s == [] then 0 else DigitsValue(s[..|s| - 1]) * 10 + DecimalDigit(s[|s| - 1])
  }

  lemma {:induction false} DigitsValueOfNatToString(n: nat)
    ensures DigitsValue(NatToString(n)) == n
  {
    if n >= 10 {
      var s := NatToString(n);
      assert s[..|s| - 1] == NatToString(n / 10);
      DigitsValueOfNatToString(n / 10);
    }
  }

  /** Printing a natural number is injective: distinct numbers, distinct texts. */
  lemma NatToStringInjective(m: nat, n: nat)
    requires NatToString(m) == NatToString(n)
    ensures m == n
  {
    DigitsValueOfNatToString(m);
    DigitsValueOfNatToString(n);
  }

  /**
   * Integer.parseInt(s): an optional '+' or '-', then at least one decimal
   * digit of any script, and the value must fit in 32 bits; anything else is a
   * NumberFormatException, modelled as None.
   */
  function ParseInt(s: string): (r: Option<int>)
    ensures r.Some? ==> InInt32(r.value)
    ensures r.Some? ==> s != [] && !IsTrimmed(s[0]) && !IsTrimmed(s[|s| - 1])
  {
    if s == [] then None
    else
      var digits := if s[0] == '-' || s[0] == '+' then s[1..] else s;
      if digits == [] || !AllDigits(digits) then None
      else
        var v: int := if s[0] == '-' then -(DigitsValue(digits) as int) else DigitsValue(digits);
        if InInt32(v) then Some(v) else None
  }

  lemma ParseIntOfNatToString(n: nat)
    requires n <= MaxInt32
    ensures ParseInt(NatToString(n)) == Some(n)
  {
    var s := NatToString(n);
    assert s[0] != '-' && s[0] != '+' by { assert IsAsciiDigit(s[0]); }
    assert AllDigits(s);
    DigitsValueOfNatToString(n);
  }

  lemma ParseIntOfNegative(n: int)
    requires MinInt32 <= n < 0
    ensures ParseInt(IntToString(n)) == Some(n)
  {
    var d := NatToString(-n);
    var s := IntToString(n);
    assert s == "-" + d;
    assert s[0] == '-' && s[1..] == d;
    assert AllDigits(d);
    DigitsValueOfNatToString(-n);
  }

  lemma ParseIntOfIntToString(n: int)
    requires InInt32(n)
    ensures ParseInt(IntToString(n)) == Some(n)
  {
    if n < 0 {
      ParseIntOfNegative(n);
    } else {
      ParseIntOfNatToString(n);
    }
  }

  /** DigitIn reads n against the first run of ten that holds it. */
  lemma {:induction false} DigitInFirstRun(n: int, zeros: seq<int>, k: nat)
    requires k <= |zeros|
    requires forall j :: 0 <= j < k ==> !(zeros[j] <= n < zeros[j] + 10)
    requires k < |zeros| ==> zeros[k] <= n < zeros[k] + 10
    ensures DigitIn(n, zeros) == if k < |zeros| then n - zeros[k] else -1
  {
    if k > 0 {
      assert !(zeros[0] <= n < zeros[0] + 10);
      DigitInFirstRun(n, zeros[1..], k - 1);
    }
  }

  /** A fullwidth digit, as typed through a CJK input method, has its value. */
  lemma FullwidthDigitValue(c: char)
    requires 0xFF10 <= c as int < 0xFF1A
    ensures DecimalDigit(c) == c as int - 0xFF10
  {
    DigitInFirstRun(c as int, OtherDigitZeros, 0);
  }

  /** An Arabic-Indic digit has its value. */
  lemma ArabicIndicDigitValue(c: char)
    requires 0x0660 <= c as int < 0x066A
    ensures DecimalDigit(c) == c as int - 0x0660
  {
    DigitInFirstRun(c as int, OtherDigitZeros, 1);
  }

  /** Fullwidth "１２", typed through a CJK input method, parses as 12. */
  lemma ParseIntReadsFullwidth()
    ensures ParseInt("\U{FF11}\U{FF12}") == Some(12)
  {
    var fw := "\U{FF11}\U{FF12}";
    FullwidthDigitValue(fw[0]);
    FullwidthDigitValue(fw[1]);
    assert AllDigits(fw);
    assert fw[..1] == [fw[0]] && [fw[0]][..0] == [];
    assert DigitsValue([fw[0]]) == 1;
    assert DigitsValue(fw) == 12;
  }

  /** Arabic-Indic "-٣٤" parses as -34. */
  lemma ParseIntReadsArabicIndic()
    ensures ParseInt("-\U{0663}\U{0664}") == Some(-34)
  {
    var s, ar := "-\U{0663}\U{0664}", "\U{0663}\U{0664}";
    ArabicIndicDigitValue(ar[0]);
    ArabicIndicDigitValue(ar[1]);
    assert s[1..] == ar && s[0] == '-';
    assert AllDigits(ar);
    assert ar[..1] == [ar[0]] && [ar[0]][..0] == [];
    assert DigitsValue([ar[0]]) == 3;
    assert DigitsValue(ar) == 34;
  }

  /** A letter after a fullwidth digit is no digit: "１x" is rejected. */
  lemma ParseIntRejectsLetterAfterDigit()
    ensures ParseInt("\U{FF11}x") == None
  {
    var s := "\U{FF11}x";
    assert s[0] != '-' && s[0] != '+';
    assert DecimalDigit(s[1]) == -1;
  }
}
