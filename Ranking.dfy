/**
 * The ranking step of MainView.executeAdvancedSearch: every fetched row is
 * scored by the similarity of its searched field to the keyword, the scored
 * rows are sorted by descending score with a stable sort (rows of equal
 * score keep the order in which they were fetched), and the first
 * TopK become the result, each as its score followed by the row's cells.
 *
 * The similarity measure is not modelled: it is a parameter, and a score
 * is any real number, compared as the sort's comparator compares them.
 */
module Ranking {
  import opened Strings

  const TopK: nat := 100

  /** A scored row: its score, its position among the fetched rows, and its cells. */
  datatype Candidate = Candidate(score: real, pos: nat, cells: seq<string>)

  /** One row of the result: the score, then the row's cells. */
  datatype RankedRow = RankedRow(score: real, cells: seq<string>)

  /**
   * `a` may come before `b` in the sorted list: a higher score, or the same
   * score and a row fetched no later.
   */
  predicate Precedes(a: Candidate, b: Candidate)
  {
    a.score > b.score || (a.score == b.score && a.pos <= b.pos)
  }

  predicate SortedByRank(s: seq<Candidate>)
  {
    forall p, q :: 0 <= p < q < |s| ==> Precedes(s[p], s[q])
  }

  /**
   * similarRecords.sort(comparingDouble(getSimilarity).reversed()): a
   * stable sort by descending score, written as an insertion sort that
   * moves each candidate left past the ones it must precede.
   */
  method SortByRank(a: array<Candidate>)
    modifies a
    ensures SortedByRank(a[..])
    ensures multiset(a[..]) == multiset(old(a[..]))
  {
    var i := 0;
    while i < a.Length
      invariant 0 <= i <= a.Length
      invariant SortedByRank(a[..i])
      invariant multiset(a[..]) == multiset(old(a[..]))
    {
      InsertLeft(a, i);
      i := i + 1;
    }
    assert a[..a.Length] == a[..];
  }

  /** One step of the sort: a[i] moves left until it meets a candidate that precedes it. */
  method InsertLeft(a: array<Candidate>, i: nat)
    requires i < a.Length && SortedByRank(a[..i])
    modifies a
    ensures SortedByRank(a[..i + 1])
    ensures multiset(a[..]) == multiset(old(a[..]))
  {
    var j := i;
    while j > 0 && !Precedes(a[j - 1], a[j])
      invariant 0 <= j <= i
      invariant forall p, q :: 0 <= p < q <= i && p != j && q != j ==> Precedes(a[p], a[q])
      invariant forall q :: j < q <= i ==> Precedes(a[j], a[q])
      invariant multiset(a[..]) == multiset(old(a[..]))
    {
      Swap(a, j - 1, j);
      j := j - 1;
    }
  }

  method Swap(a: array<Candidate>, i: nat, j: nat)
    requires i < j < a.Length
    modifies a
    ensures a[..] == old(a[..])[i := old(a[j])][j := old(a[i])]
    ensures multiset(a[..]) == multiset(old(a[..]))
  {
    a[i], a[j] := a[j], a[i];
  }

  /** The candidates as the stream builds them: row k scored, at position k. */
  predicate Tagged(s: seq<Candidate>)
  {
    forall k :: 0 <= k < |s| ==> s[k].pos == k
  }

  /** In a sequence whose elements are pairwise distinct, each occurs at most once. */
  lemma {:induction false} DistinctCount(s: seq<Candidate>, e: Candidate)
    requires Tagged(s)
    ensures multiset(s)[e] <= 1
  {
    if s != [] {
      var init := s[..|s| - 1];
      assert s == init + [s[|s| - 1]];
      assert Tagged(init);
      DistinctCount(init, e);
      if e == s[|s| - 1] {
        assert e !in init;
      }
    }
  }

  /**
   * A sorted permutation of tagged candidates: each element is the input
   * candidate at its own position, no position occurs twice, and every
   * input position occurs.
   */
  lemma SortedTaggedFacts(input: seq<Candidate>, out: seq<Candidate>)
    requires Tagged(input) && multiset(out) == multiset(input)
    ensures |out| == |input|
    ensures forall p :: 0 <= p < |out| ==> out[p].pos < |input| && out[p] == input[out[p].pos]
    ensures forall p, q :: 0 <= p < q < |out| ==> out[p].pos != out[q].pos
    ensures forall j :: 0 <= j < |input| ==> input[j] in out
  {
    assert |out| == |multiset(out)| == |multiset(input)| == |input|;
    forall p | 0 <= p < |out|
      ensures out[p].pos < |input| && out[p] == input[out[p].pos]
    {
      assert out[p] in multiset(input);
      var k :| 0 <= k < |input| && input[k] == out[p];
    }
    forall p, q | 0 <= p < q < |out|
      ensures out[p].pos != out[q].pos
    {
      if out[p].pos == out[q].pos {
        var e := out[p];
        assert out == out[..q] + [out[q]] + out[q + 1..];
        assert e in out[..q];
        assert multiset(out)[e] >= 2;
        DistinctCount(input, e);
        assert false;
      }
    }
    forall j | 0 <= j < |input|
      ensures input[j] in out
    {
      assert input[j] in multiset(out);
    }
  }

  /** The score of a fetched row: the similarity of its searched field to the keyword. */
  function Score(similarity: (string, string) -> real, keyword: string, row: seq<string>, field: nat): real
    requires field < |row|
  {
    similarity(keyword, row[field])
  }

  /** Every row has the searched field. */
  predicate HasField(rows: seq<seq<string>>, field: nat)
  {
    forall r :: 0 <= r < |rows| ==> field < |rows[r]|
  }

  /** The candidates as the stream builds them from the rows. */
  predicate ScoredRows(input: seq<Candidate>, rows: seq<seq<string>>, field: nat, keyword: string,
                       similarity: (string, string) -> real)
    requires HasField(rows, field)
  {
    |input| == |rows| &&
    forall k :: 0 <= k < |rows| ==>
      input[k] == Candidate(Score(similarity, keyword, rows[k], field), k, rows[k])
  }

  /**
   * `top` is the ranking of `rows`, `order` naming the fetched row behind
   * each result row: min(N, TopK) distinct rows, each with its score,
   * scores non-increasing, rows of equal score in fetch order, and every
   * row left out ranking after every row kept (a lower score, or the same
   * score and fetched later).
   */
  ghost predicate IsTopRanking(rows: seq<seq<string>>, field: nat, keyword: string,
                               similarity: (string, string) -> real, top: seq<RankedRow>, order: seq<nat>)
    requires HasField(rows, field)
  {
    |top| == Min(|rows|, TopK) && |order| == |top| &&
    (forall k :: 0 <= k < |top| ==>
      order[k] < |rows| && top[k] == RankedRow(Score(similarity, keyword, rows[order[k]], field), rows[order[k]])) &&
    (forall k, l :: 0 <= k < l < |top| ==> order[k] != order[l]) &&
    (forall k, l :: 0 <= k < l < |top| ==>
      top[k].score > top[l].score || (top[k].score == top[l].score && order[k] < order[l])) &&
    (forall j, k :: 0 <= j < |rows| && j !in order && 0 <= k < |top| ==>
      var s := Score(similarity, keyword, rows[j], field);
      top[k].score > s || (top[k].score == s && order[k] < j))
  }

  /**
   * The ranked result: rows are scored, stably sorted by descending score
   * and cut to the first TopK.
   */
  method TopRanked(rows: seq<seq<string>>, field: nat, keyword: string, similarity: (string, string) -> real)
    returns (top: seq<RankedRow>, ghost order: seq<nat>)
    requires HasField(rows, field)
    ensures IsTopRanking(rows, field, keyword, similarity, top, order)
  {
    var a := new Candidate[|rows|](k requires 0 <= k < |rows| && field < |rows[k]| =>
                                     Candidate(similarity(keyword, rows[k][field]), k, rows[k]));
    ghost var input := a[..];
    assert ScoredRows(input, rows, field, keyword, similarity);
    SortByRank(a);
    top, order := TakeTop(a, Min(a.Length, TopK));
    TopFacts(rows, field, keyword, similarity, input, a[..], top, order);
  }

  /** topSimilarRecords and the loop over it: the first `n` candidates, as score and cells. */
  method TakeTop(a: array<Candidate>, n: nat) returns (top: seq<RankedRow>, ghost order: seq<nat>)
    requires n <= a.Length
    ensures |top| == n && |order| == n
    ensures forall m :: 0 <= m < n ==> top[m] == RankedRow(a[m].score, a[m].cells) && order[m] == a[m].pos
  {
    top, order := [], [];
    var k := 0;
    while k < n
      invariant 0 <= k <= n
      invariant |top| == k && |order| == k
      invariant forall m :: 0 <= m < k ==> top[m] == RankedRow(a[m].score, a[m].cells) && order[m] == a[m].pos
    {
      top := top + [RankedRow(a[k].score, a[k].cells)];
      order := order + [a[k].pos];
      k := k + 1;
    }
  }

  /** What the first `n` of a sorted permutation of the scored rows are. */
  lemma TopFacts(rows: seq<seq<string>>, field: nat, keyword: string, similarity: (string, string) -> real,
                 input: seq<Candidate>, out: seq<Candidate>, top: seq<RankedRow>, order: seq<nat>)
    requires HasField(rows, field) && ScoredRows(input, rows, field, keyword, similarity)
    requires SortedByRank(out) && multiset(out) == multiset(input)
    requires |top| == Min(|rows|, TopK) && |order| == |top| && |top| <= |out|
    requires forall m :: 0 <= m < |top| ==> top[m] == RankedRow(out[m].score, out[m].cells) && order[m] == out[m].pos
    ensures forall k :: 0 <= k < |top| ==>
      order[k] < |rows| && top[k] == RankedRow(Score(similarity, keyword, rows[order[k]], field), rows[order[k]])
    ensures forall k, l :: 0 <= k < l < |top| ==> order[k] != order[l]
    ensures forall k, l :: 0 <= k < l < |top| ==>
      top[k].score > top[l].score || (top[k].score == top[l].score && order[k] < order[l])
    ensures forall j, k :: 0 <= j < |rows| && j !in order && 0 <= k < |top| ==>
      var s := Score(similarity, keyword, rows[j], field);
      top[k].score > s || (top[k].score == s && order[k] < j)
  {
    assert Tagged(input);
    SortedTaggedFacts(input, out);
    forall k, l | 0 <= k < l < |top|
      ensures top[k].score > top[l].score || (top[k].score == top[l].score && order[k] < order[l])
    {
      assert Precedes(out[k], out[l]);
    }
    forall j, m | 0 <= j < |rows| && j !in order && 0 <= m < |top|
      ensures var s := Score(similarity, keyword, rows[j], field);
        top[m].score > s || (top[m].score == s && order[m] < j)
    {
      var p :| 0 <= p < |out| && out[p] == input[j];
      assert out[p].pos == j;
      assert m < p;
      assert Precedes(out[m], out[p]);
    }
  }

  /** Fetched row `i` ranks before fetched row `j`: a higher score, or the same score and fetched earlier. */
  predicate RanksBefore(rows: seq<seq<string>>, field: nat, keyword: string, similarity: (string, string) -> real,
                        i: nat, j: nat)
    requires HasField(rows, field) && i < |rows| && j < |rows|
  {
    var si := Score(similarity, keyword, rows[i], field);
    var sj := Score(similarity, keyword, rows[j], field);
    si > sj || (si == sj && i < j)
  }

  /** In a ranking, the row at place k ranks before every row not among the first k + 1. */
  lemma RankedBeforeRest(rows: seq<seq<string>>, field: nat, keyword: string, similarity: (string, string) -> real,
                         top: seq<RankedRow>, order: seq<nat>, k: nat, x: nat)
    requires HasField(rows, field) && IsTopRanking(rows, field, keyword, similarity, top, order)
    requires k < |order| && x < |rows| && x !in order[..k + 1]
    ensures RanksBefore(rows, field, keyword, similarity, order[k], x)
  {
    if x in order {
      var k' :| 0 <= k' < |order| && order[k'] == x;
      assert order[k'] !in order[..k + 1];
      assert k < k';
    }
  }

  /** Among the rows not placed before k, the row at place k ranks first. */
  lemma RankedFirstAmongRest(rows: seq<seq<string>>, field: nat, keyword: string, similarity: (string, string) -> real,
                             top: seq<RankedRow>, order: seq<nat>, k: nat, x: nat)
    requires HasField(rows, field) && IsTopRanking(rows, field, keyword, similarity, top, order)
    requires k < |order| && x < |rows| && x !in order[..k]
    ensures x == order[k] || RanksBefore(rows, field, keyword, similarity, order[k], x)
  {
    if x != order[k] {
      assert order[..k + 1] == order[..k] + [order[k]];
      RankedBeforeRest(rows, field, keyword, similarity, top, order, k, x);
    }
  }

  /** Two distinct rows never both rank before each other. */
  lemma RanksBeforeAsymmetric(rows: seq<seq<string>>, field: nat, keyword: string,
                              similarity: (string, string) -> real, i: nat, j: nat)
    requires HasField(rows, field) && i < |rows| && j < |rows|
    ensures !(RanksBefore(rows, field, keyword, similarity, i, j) && RanksBefore(rows, field, keyword, similarity, j, i))
  {
  }

  /**
   * The ranking is determined by the fetched rows and their scores: two
   * results that both meet IsTopRanking are the same rows in the same order.
   */
  lemma RankingIsUnique(rows: seq<seq<string>>, field: nat, keyword: string, similarity: (string, string) -> real,
                        top1: seq<RankedRow>, order1: seq<nat>, top2: seq<RankedRow>, order2: seq<nat>)
    requires HasField(rows, field)
    requires IsTopRanking(rows, field, keyword, similarity, top1, order1)
    requires IsTopRanking(rows, field, keyword, similarity, top2, order2)
    ensures order1 == order2 && top1 == top2
  {
    var k := 0;
    while k < |order1|
      invariant 0 <= k <= |order1| == |order2|
      invariant order1[..k] == order2[..k]
    {
      var a, b := order1[k], order2[k];
      assert a !in order1[..k] && b !in order2[..k];
      RankedFirstAmongRest(rows, field, keyword, similarity, top1, order1, k, b);
      RankedFirstAmongRest(rows, field, keyword, similarity, top2, order2, k, a);
      RanksBeforeAsymmetric(rows, field, keyword, similarity, a, b);
      assert a == b;
      assert order1[..k + 1] == order1[..k] + [a];
      assert order2[..k + 1] == order2[..k] + [b];
      k := k + 1;
    }
    assert order1 == order1[..k] && order2 == order2[..k];
  }

  // ---------------------------------------------------------------------
  // The keyword and the searched column

  /** searchValues[0].replace("%", "").toLowerCase(). */
  function SearchKeyword(pattern: string): (keyword: string)
    ensures '%' !in keyword
  {
    ToLower(RemoveChars(pattern, {'%'}))
  }

  /**
   * The pattern the search dialog builds, `%` + keyword + `%`, gives back
   * the keyword in lower case, provided the keyword has no `%` of its own.
   */
  lemma KeywordOfPattern(k: string)
    requires '%' !in k
    ensures SearchKeyword("%" + k + "%") == ToLower(k)
  {
    RemoveCharsAppend("%" + k, "%", {'%'});
    RemoveCharsAppend("%", k, {'%'});
    RemoveCharsAbsent(k, {'%'});
  }

  /** Vector.indexOf: the first position holding `x`, or -1. */
  function IndexOf(names: seq<string>, x: string): (i: int)
    ensures -1 <= i < |names|
    ensures i == -1 <==> x !in names
    ensures i >= 0 ==> names[i] == x && x !in names[..i]
  {
    if names == [] then -1
    else if names[0] == x then 0
    else
      var j := IndexOf(names[1..], x);
      if j < 0 then -1
      else
        assert names[..j + 1] == [names[0]] + names[1..][..j];
        j + 1
  }
}
