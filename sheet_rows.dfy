/**
 * The rows of the output workbook and the order in which
 * ExcelHandler._sort_sheet_data_by_traffic puts them (main.py:129-130):
 * `sorted(rows, key=lambda x: x[2], reverse=True)`, a stable sort, descending
 * by the third column, the traffic label.  Labels are compared as Python
 * compares str values: lexicographically by code point.
 */
module SheetRows {

  /** The second column holds a count in data rows and a label in the header. */
  datatype Cell = Label(text: string) | Count(n: int)

  /** An output row: URL, number of comments, traffic. */
  datatype Row = Row(url: string, comments: Cell, traffic: string)

  /** The header written on every sheet the handler creates (main.py:119). */
  const Header := Row("URL", Label("Number of comments"), "Traffic")

  // ---------------------------------------------------------------------------
  // Python's `<` on str

  predicate StrLess(a: string, b: string)
  {
    if |a| == 0 then |b| > 0
    else if |b| == 0 then false
    else a[0] < b[0] || (a[0] == b[0] && StrLess(a[1..], b[1..]))
  }

  lemma {:induction false} StrLessIrreflexive(a: string)
    ensures !StrLess(a, a)
  {
    if |a| > 0 {
      StrLessIrreflexive(a[1..]);
    }
  }

  lemma {:induction false} StrLessTransitive(a: string, b: string, c: string)
    requires StrLess(a, b) && StrLess(b, c)
    ensures StrLess(a, c)
  {
    if |a| > 0 && |b| > 0 && |c| > 0 && a[0] == b[0] == c[0] {
      StrLessTransitive(a[1..], b[1..], c[1..]);
    }
  }

  /** Distinct labels are always ordered one way or the other. */
  lemma {:induction false} StrLessTotal(a: string, b: string)
    requires a != b
    ensures StrLess(a, b) || StrLess(b, a)
  {
    if |a| > 0 && |b| > 0 && a[0] == b[0] {
      assert a == [a[0]] + a[1..] && b == [b[0]] + b[1..];
      StrLessTotal(a[1..], b[1..]);
    }
  }

  /** The two `<` comparisons never both hold. */
  lemma StrLessAsymmetric(a: string, b: string)
    requires StrLess(a, b)
    ensures !StrLess(b, a)
  {
    if StrLess(b, a) {
      StrLessTransitive(a, b, a);
      StrLessIrreflexive(a);
    }
  }

  // ---------------------------------------------------------------------------
  // The stable descending sort

  /** No row is followed by one with a strictly larger traffic label. */
  predicate TrafficDescending(rows: seq<Row>)
  {
    forall i, j :: 0 <= i < j < |rows| ==> !StrLess(rows[i].traffic, rows[j].traffic)
  }

  /** The rows whose traffic label is `t`, in their order. */
  function WithTraffic(rows: seq<Row>, t: string): seq<Row>
  {
    if rows == [] then []
    else (if rows[0].traffic == t then [rows[0]] else []) + WithTraffic(rows[1..], t)
  }

  /** Puts `x`, which came before every row of `rows`, after the rows whose
      label is strictly larger and before all others. */
  function Insert(x: Row, rows: seq<Row>): seq<Row>
  {
    if rows == [] || !StrLess(x.traffic, rows[0].traffic) then [x] + rows
    else [rows[0]] + Insert(x, rows[1..])
  }

  /** `sorted(rows, key=lambda x: x[2], reverse=True)`: the same rows, reordered. */
  function SortByTraffic(rows: seq<Row>): (r: seq<Row>)
    ensures |r| == |rows|
  {
    if rows == [] then []
    else
      var sortedTail := SortByTraffic(rows[1..]);
      InsertPermutes(rows[0], sortedTail);
      Insert(rows[0], sortedTail)
  }

  lemma {:induction false} InsertPermutes(x: Row, rows: seq<Row>)
    ensures multiset(Insert(x, rows)) == multiset(rows) + multiset{x}
    ensures |Insert(x, rows)| == |rows| + 1
  {
    if rows != [] && StrLess(x.traffic, rows[0].traffic) {
      InsertPermutes(x, rows[1..]);
      assert rows == [rows[0]] + rows[1..];
    }
  }

  /** "Not smaller than" chains. */
  lemma NotLessChain(a: string, b: string, c: string)
    requires !StrLess(a, b) && !StrLess(b, c)
    ensures !StrLess(a, c)
  {
    if a != b && b != c {
      StrLessTotal(a, b);
      StrLessTotal(b, c);
      StrLessTransitive(c, b, a);
      StrLessAsymmetric(c, a);
    } else if a == c {
      StrLessIrreflexive(a);
    }
  }

  lemma {:induction false} InsertKeepsDescending(x: Row, rows: seq<Row>)
    requires TrafficDescending(rows)
    ensures TrafficDescending(Insert(x, rows))
  {
    var r := Insert(x, rows);
    if rows == [] || !StrLess(x.traffic, rows[0].traffic) {
      forall j | 0 < j < |r|
        ensures !StrLess(x.traffic, r[j].traffic)
      {
        assert r[j] == rows[j - 1];
        if j > 1 {
          NotLessChain(x.traffic, rows[0].traffic, rows[j - 1].traffic);
        }
      }
    } else {
      var tail := rows[1..];
      InsertKeepsDescending(x, tail);
      InsertPermutes(x, tail);
      forall j | 0 < j < |r|
        ensures !StrLess(rows[0].traffic, r[j].traffic)
      {
        var y := r[j];
        assert y in multiset(Insert(x, tail));
        if y == x {
          StrLessAsymmetric(x.traffic, rows[0].traffic);
        } else {
          assert y in multiset(tail);
          var k :| 0 <= k < |tail| && tail[k] == y;
          assert rows[k + 1] == y;
        }
      }
    }
  }

  /** Inserting `x` in front of the rows that share its label keeps their order:
      among rows with one label, `x` comes first. */
  lemma {:induction false} InsertStable(x: Row, rows: seq<Row>, t: string)
    ensures WithTraffic(Insert(x, rows), t) == (if x.traffic == t then [x] else []) + WithTraffic(rows, t)
  {
    if rows == [] || !StrLess(x.traffic, rows[0].traffic) {
      assert ([x] + rows)[1..] == rows;
    } else {
      InsertStable(x, rows[1..], t);
      assert ([rows[0]] + Insert(x, rows[1..]))[1..] == Insert(x, rows[1..]);
      if x.traffic == t {
        StrLessIrreflexive(t);
      }
    }
  }

  /** The sort is a permutation, descending by traffic, and stable: for every
      label, the rows carrying it appear in the same relative order as before. */
  lemma {:induction false} SortByTrafficCorrect(rows: seq<Row>)
    ensures |SortByTraffic(rows)| == |rows|
    ensures multiset(SortByTraffic(rows)) == multiset(rows)
    ensures TrafficDescending(SortByTraffic(rows))
    ensures forall t :: WithTraffic(SortByTraffic(rows), t) == WithTraffic(rows, t)
  {
    if rows != [] {
      var tail := SortByTraffic(rows[1..]);
      SortByTrafficCorrect(rows[1..]);
      InsertPermutes(rows[0], tail);
      InsertKeepsDescending(rows[0], tail);
      forall t
        ensures WithTraffic(SortByTraffic(rows), t) == WithTraffic(rows, t)
      {
        InsertStable(rows[0], tail, t);
      }
      assert rows == [rows[0]] + rows[1..];
    }
  }

  /** Rows already in descending order are left exactly as they are. */
  lemma {:induction false} SortByTrafficKeepsSorted(rows: seq<Row>)
    requires TrafficDescending(rows)
    ensures SortByTraffic(rows) == rows
  {
    if rows != [] {
      assert TrafficDescending(rows[1..]) by {
        forall i, j | 0 <= i < j < |rows| - 1
          ensures !StrLess(rows[1..][i].traffic, rows[1..][j].traffic)
        {
          assert rows[1..][i] == rows[i + 1] && rows[1..][j] == rows[j + 1];
        }
      }
      SortByTrafficKeepsSorted(rows[1..]);
      if |rows| > 1 {
        assert !StrLess(rows[0].traffic, rows[1].traffic);
      }
      assert rows == [rows[0]] + rows[1..];
    }
  }

  /** Traffic labels are ordered as text, not by what they mean: "medium" sorts
      before "low", and "low" before "high". */
  lemma SortIsLexical(u1: string, u2: string, u3: string, c: Cell)
    ensures SortByTraffic([Row(u1, c, "low"), Row(u2, c, "high"), Row(u3, c, "medium")])
         == [Row(u3, c, "medium"), Row(u1, c, "low"), Row(u2, c, "high")]
  {
    var low, high, medium := Row(u1, c, "low"), Row(u2, c, "high"), Row(u3, c, "medium");
    assert StrLess("high", "medium") && StrLess("low", "medium") && StrLess("high", "low");
    assert !StrLess("medium", "high") && !StrLess("low", "high");
    assert SortByTraffic([medium]) == [medium];
    assert [high, medium][1..] == [medium];
    assert Insert(high, [medium]) == [medium] + Insert(high, []);
    assert SortByTraffic([high, medium]) == Insert(high, [medium]) == [medium, high];
    assert [low, high, medium][1..] == [high, medium];
    assert Insert(low, [medium, high]) == [medium] + Insert(low, [high]);
  }
}
