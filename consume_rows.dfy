/**
 * The rows of a consume report, `(name, copper, deaths)`, as discord_card.py
 * and visualize_consumes.py both build them from `consumable-totals.csv`,
 * and the two things both scripts do with them: sort by copper, most
 * expensive first (`rows.sort(key=lambda x: x[1], reverse=True)`), and add
 * the columns up.
 */
module ConsumeRows {
  import opened Seqs

  datatype Row = Row(name: string, copper: int, deaths: int)

  /** The sort key of the descending sort: Python's `reverse=True` keeps ties in input order, as the ascending sort on the negated key does. */
  function NegCopper(r: Row): real {
    -(r.copper as real)
  }

  /** `rows.sort(key=lambda x: x[1], reverse=True)` */
  function ByCopperDesc(rows: seq<Row>): seq<Row> {
    SortBy(rows, NegCopper)
  }

  /** The rows whose copper is `c`, in order. */
  function WithCopper(rows: seq<Row>, c: int): seq<Row> {
    WithKey(rows, NegCopper, -(c as real))
  }

  /**
   * The sorted rows are the input rows, reordered, most copper first; rows
   * with equal copper keep their input order.
   */
  lemma {:induction false} ByCopperDescFacts(rows: seq<Row>)
    ensures multiset(ByCopperDesc(rows)) == multiset(rows)
    ensures |ByCopperDesc(rows)| == |rows|
    ensures forall i, j :: 0 <= i < j < |ByCopperDesc(rows)| ==> ByCopperDesc(rows)[i].copper >= ByCopperDesc(rows)[j].copper
    ensures forall c :: WithCopper(ByCopperDesc(rows), c) == WithCopper(rows, c)
  {
    SortByPermutes(rows, NegCopper);
    var s := ByCopperDesc(rows);
    forall i, j | 0 <= i < j < |s| ensures s[i].copper >= s[j].copper {
      assert NegCopper(s[i]) <= NegCopper(s[j]);
    }
    forall c ensures WithCopper(s, c) == WithCopper(rows, c) {
      SortByStable(rows, NegCopper, -(c as real));
    }
  }

  /** `sum(x[1] for x in rows)` */
  function TotalCopper(rows: seq<Row>): int {
    if rows == [] then 0 else TotalCopper(rows[..|rows| - 1]) + rows[|rows| - 1].copper
  }

  /** `sum(x[2] for x in rows)` */
  function TotalDeaths(rows: seq<Row>): int {
    if rows == [] then 0 else TotalDeaths(rows[..|rows| - 1]) + rows[|rows| - 1].deaths
  }

  lemma {:induction false} TotalsAppend(a: seq<Row>, b: seq<Row>)
    ensures TotalCopper(a + b) == TotalCopper(a) + TotalCopper(b)
    ensures TotalDeaths(a + b) == TotalDeaths(a) + TotalDeaths(b)
    decreases |b|
  {
    if b == [] {
      assert a + b == a;
    } else {
      assert (a + b)[..|a + b| - 1] == a + b[..|b| - 1];
      TotalsAppend(a, b[..|b| - 1]);
    }
  }

  lemma {:induction false} TotalsCons(x: Row, s: seq<Row>)
    ensures TotalCopper([x] + s) == x.copper + TotalCopper(s)
    ensures TotalDeaths([x] + s) == x.deaths + TotalDeaths(s)
  {
    TotalsAppend([x], s);
    assert [x] == [] + [x];
  }

  lemma {:induction false} TotalsInsert(x: Row, s: seq<Row>)
    ensures TotalCopper(Insert(x, s, NegCopper)) == TotalCopper(s) + x.copper
    ensures TotalDeaths(Insert(x, s, NegCopper)) == TotalDeaths(s) + x.deaths
    decreases |s|
  {
    if s == [] {
      assert Insert(x, s, NegCopper) == [] + [x];
    } else if NegCopper(x) < NegCopper(s[0]) {
      assert Insert(x, s, NegCopper) == [x] + s;
      TotalsCons(x, s);
    } else {
      var t := Insert(x, s[1..], NegCopper);
      assert Insert(x, s, NegCopper) == [s[0]] + t;
      TotalsInsert(x, s[1..]);
      TotalsCons(s[0], t);
      TotalsCons(s[0], s[1..]);
      assert [s[0]] + s[1..] == s;
    }
  }

  /** The column sums do not depend on the order of the rows. */
  lemma {:induction false} TotalsOfSorted(rows: seq<Row>)
    ensures TotalCopper(ByCopperDesc(rows)) == TotalCopper(rows)
    ensures TotalDeaths(ByCopperDesc(rows)) == TotalDeaths(rows)
    decreases |rows|
  {
    if rows != [] {
      var init := rows[..|rows| - 1];
      TotalsOfSorted(init);
      TotalsInsert(rows[|rows| - 1], SortBy(init, NegCopper));
    }
  }
}
