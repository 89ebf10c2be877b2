/**
 * visualize_consumes.py: the consume table.  `to_int_any` reads a number
 * out of a CSV field, `make_bar` sizes a row's bar, `sniff_delim` falls back
 * to counting separators, and `main` reads the CSV records (skipping one
 * optional header row), sorts them by copper and adds them up.  The coin
 * formatting is in module Currency and the sort and the sums in module
 * ConsumeRows.  The CSV is given as the records `csv.reader` splits it into.
 */
module VisualizeConsumes {
  import opened Wrappers
  import opened Text
  import opened ConsumeRows

  // ---------------------------------------------------------------------
  // to_int_any

  /**
   * `NUM_RE.search(s)` with `NUM_RE = -?\d+`, read by `int`: the leftmost
   * run of digits, negative when a `-` stands right before it.
   */
  function FirstNumber(s: string): Option<int>
    decreases |s|
  {
    if s == [] then None
    else if s[0] == '-' && |s| > 1 && IsDigit(s[1]) then
      var t := s[1..];
      Some(-(DigitsValue(t[..DigitRun(t)]) as int))
    else if IsDigit(s[0]) then Some(DigitsValue(s[..DigitRun(s)]) as int)
    else FirstNumber(s[1..])
  }

  /** `to_int_any(x)`; `None` stands for Python's `None`. */
  function ToIntAny(x: Option<string>): int {
    match x
    case None => 0
    case Some(t) =>
      var s := Strip(t);
      if s == [] then 0
      else match FirstNumber(RemoveChar(s, ','))
        case Some(v) => v
        case None => 0
  }

  /** The search fails exactly when there is no digit at all. */
  lemma {:induction false} FirstNumberNone(s: string)
    ensures FirstNumber(s).None? <==> forall i :: 0 <= i < |s| ==> !IsDigit(s[i])
    decreases |s|
  {
    if s != [] && !(s[0] == '-' && |s| > 1 && IsDigit(s[1])) && !IsDigit(s[0]) {
      FirstNumberNone(s[1..]);
      assert forall i :: 1 <= i < |s| ==> s[i] == s[1..][i - 1];
    }
  }

  /** Text without digits or minus signs in front of a number is skipped by the search. */
  lemma {:induction false} FirstNumberSkips(p: string, s: string)
    requires forall i :: 0 <= i < |p| ==> !IsDigit(p[i]) && p[i] != '-'
    ensures FirstNumber(p + s) == FirstNumber(s)
    decreases |p|
  {
    if p != [] {
      assert (p + s)[1..] == p[1..] + s;
      FirstNumberSkips(p[1..], s);
    } else {
      assert p + s == s;
    }
  }

  /** The search reads back a printed integer. */
  lemma {:induction false} FirstNumberOfIntToString(i: int)
    ensures FirstNumber(IntToString(i)) == Some(i)
  {
    var n: nat := if i < 0 then -i else i;
    var d := NatToString(n);
    NatToStringRoundTrip(n);
    DigitRunAll(d);
    assert d[..|d|] == d;
    if i < 0 {
      var s := "-" + d;
      assert s[1..] == d;
    }
  }

  /** A run of digits is read up to the first non-digit after it: `"1337c"` gives 1337. */
  lemma {:induction false} FirstNumberOfRun(d: string, q: string)
    requires d != [] && AllDigits(d) && (q == [] || !IsDigit(q[0]))
    ensures FirstNumber(d + q) == Some(DigitsValue(d) as int)
  {
    var s := d + q;
    DigitRunOfRun(d, q);
    assert s[..|d|] == d;
    assert s[0] == d[0];
  }

  /** A `-` right before the run makes it negative: `"-25 gold"` gives -25. */
  lemma {:induction false} FirstNumberOfNegRun(d: string, q: string)
    requires d != [] && AllDigits(d) && (q == [] || !IsDigit(q[0]))
    ensures FirstNumber("-" + d + q) == Some(-(DigitsValue(d) as int))
  {
    var s := "-" + d + q;
    assert s[1..] == d + q;
    assert s[1] == d[0];
    DigitRunOfRun(d, q);
    assert (d + q)[..|d|] == d;
  }

  /** A field without surrounding whitespace or commas is searched as it stands. */
  lemma {:induction false} ToIntAnyOfClean(t: string, v: int)
    requires t != [] && !IsSpace(t[0]) && !IsSpace(t[|t| - 1]) && ',' !in t
    requires FirstNumber(t) == Some(v)
    ensures ToIntAny(Some(t)) == v
  {
    StripOfNoSpace(t);
    assert forall i :: 0 <= i < |t| ==> t[i] != ',' by {
      forall i | 0 <= i < |t| ensures t[i] != ',' {
        assert t[i] in t;
      }
    }
    RemoveCharAbsent(t, ',');
  }

  /**
   * `to_int_any` takes the first digit run of a field, whatever follows it:
   * `"12g 34s"` gives 12.  The field has no surrounding whitespace and no
   * comma here; `ToIntAnyIgnoresComma` covers commas.
   */
  lemma {:induction false} ToIntAnyOfRun(p: string, d: string, q: string)
    requires forall i :: 0 <= i < |p| ==> !IsDigit(p[i]) && p[i] != '-'
    requires d != [] && AllDigits(d) && (q == [] || !IsDigit(q[0]))
    requires ',' !in p + d + q
    requires !IsSpace((p + d + q)[0]) && !IsSpace((p + d + q)[|p + d + q| - 1])
    ensures ToIntAny(Some(p + d + q)) == DigitsValue(d)
  {
    assert FirstNumber(p + d + q) == Some(DigitsValue(d) as int) by {
      assert p + d + q == p + (d + q);
      FirstNumberSkips(p, d + q);
      FirstNumberOfRun(d, q);
    }
    ToIntAnyOfClean(p + d + q, DigitsValue(d));
  }

  /** The same with a minus sign right before the run: `"cost -25g"` gives -25. */
  lemma {:induction false} ToIntAnyOfNegRun(p: string, d: string, q: string)
    requires forall i :: 0 <= i < |p| ==> !IsDigit(p[i]) && p[i] != '-'
    requires d != [] && AllDigits(d) && (q == [] || !IsDigit(q[0]))
    requires ',' !in p + "-" + d + q
    requires !IsSpace((p + "-" + d + q)[0]) && !IsSpace((p + "-" + d + q)[|p + "-" + d + q| - 1])
    ensures ToIntAny(Some(p + "-" + d + q)) == -(DigitsValue(d) as int)
  {
    assert FirstNumber(p + "-" + d + q) == Some(-(DigitsValue(d) as int)) by {
      assert p + "-" + d + q == p + ("-" + d + q);
      FirstNumberSkips(p, "-" + d + q);
      FirstNumberOfNegRun(d, q);
    }
    ToIntAnyOfClean(p + "-" + d + q, -(DigitsValue(d) as int));
  }

  /** `to_int_any(None)` and `to_int_any` of a blank field are 0. */
  lemma {:induction false} ToIntAnyBlank(x: Option<string>)
    requires x.Some? ==> forall k :: 0 <= k < |x.value| ==> IsSpace(x.value[k])
    ensures ToIntAny(x) == 0
  {
  }

  /** A field without a digit reads as 0. */
  lemma {:induction false} ToIntAnyNoDigit(t: string)
    requires forall k :: 0 <= k < |t| ==> !IsDigit(t[k])
    ensures ToIntAny(Some(t)) == 0
  {
    var s := Strip(t);
    if s != [] {
      var r := RemoveChar(s, ',');
      StripMiddle(t);
      var a :| MiddleAt(t, s, a);
      assert forall k :: 0 <= k < |s| ==> s[k] == t[a + k];
      RemoveCharKeepsOthers(s, ',');
      FirstNumberNone(r);
    }
  }

  /** `to_int_any(str(i)) == i` */
  lemma {:induction false} ToIntAnyOfIntToString(i: int)
    ensures ToIntAny(Some(IntToString(i))) == i
  {
    var s := IntToString(i);
    var n: nat := if i < 0 then -i else i;
    var d := NatToString(n);
    assert s == d || s == "-" + d;
    assert forall k :: 0 <= k < |s| ==> s[k] == '-' || IsDigit(s[k]);
    StripOfNoSpace(s);
    RemoveCharAbsent(s, ',');
    FirstNumberOfIntToString(i);
  }

  /** Thousands separators are ignored: `to_int_any("1,337") == 1337`. */
  lemma {:induction false} ToIntAnyIgnoresComma(a: string, b: string)
    requires a != [] && b != [] && AllDigits(a) && AllDigits(b)
    ensures ToIntAny(Some(a + "," + b)) == DigitsValue(a + b)
  {
    var s := a + [','] + b;
    assert s[0] == a[0] && s[|s| - 1] == b[|b| - 1];
    StripOfNoSpace(s);
    RemoveCharAbsent(a, ',');
    RemoveCharAbsent(b, ',');
    RemoveCharSplit(a, b, ',');
    AllDigitsAppend(a, b);
    FirstNumberOfDigits(a + b);
  }

  /** A run of digits is read whole. */
  lemma {:induction false} FirstNumberOfDigits(d: string)
    requires d != [] && AllDigits(d)
    ensures FirstNumber(d) == Some(DigitsValue(d) as int)
  {
    DigitRunAll(d);
    assert d[..|d|] == d;
  }

  /** Every character of `s.replace(c, "")` is a character of `s`. */
  lemma {:induction false} RemoveCharKeepsOthers(s: string, c: char)
    ensures forall k :: 0 <= k < |RemoveChar(s, c)| ==> exists j :: 0 <= j < |s| && RemoveChar(s, c)[k] == s[j]
    decreases |s|
  {
    if s != [] {
      var p := s[..|s| - 1];
      RemoveCharKeepsOthers(p, c);
      forall k | 0 <= k < |RemoveChar(s, c)| ensures exists j :: 0 <= j < |s| && RemoveChar(s, c)[k] == s[j] {
        if k < |RemoveChar(p, c)| {
          var j :| 0 <= j < |p| && RemoveChar(p, c)[k] == p[j];
          assert p[j] == s[j];
        } else {
          var j := |s| - 1;
          assert RemoveChar(s, c)[k] == s[j];
        }
      }
    } else {
      assert RemoveChar(s, c) == [];
    }
  }

  // ---------------------------------------------------------------------
  // make_bar and sniff_delim

  /** `width_px` */
  const BarTrack: int := 520

  /** The `<div class="bar">` of a row, or the empty string. */
  datatype Bar = NoBar | Bar(width: int)

  /** Python's `int()` of a real quotient: truncation toward zero. */
  function TruncDiv(a: int, b: int): int
    requires b > 0
  {
    if a >= 0 then a / b else -((-a) / b)
  }

  /** The quotient of a non-negative number lies between the two neighbouring multiples. */
  lemma {:induction false} DivBounds(a: int, b: int)
    requires a >= 0 && b > 0
    ensures 0 <= a / b && (a / b) * b <= a < (a / b) * b + b
  {
  }

  lemma {:induction false} MulMono(x: int, y: int, m: int)
    requires x <= y && m > 0
    ensures x * m <= y * m
  {
    assert y * m - x * m == (y - x) * m;
  }

  /** `make_bar(value, max_value)`: no bar when `max_value <= 0`, else a bar `value / max_value` of the track wide. */
  function MakeBar(value: int, maxValue: int): (b: Bar)
    ensures b.NoBar? <==> maxValue <= 0
  {
    if maxValue <= 0 then NoBar else Bar(TruncDiv(value * BarTrack, maxValue))
  }

  /** A value between 0 and the maximum gets a bar within the track; the maximum fills it. */
  lemma {:induction false} BarWithinTrack(value: int, maxValue: int)
    requires 0 < maxValue && 0 <= value <= maxValue
    ensures 0 <= MakeBar(value, maxValue).width <= BarTrack
    ensures value == maxValue ==> MakeBar(value, maxValue).width == BarTrack
  {
    var a := value * BarTrack;
    MulMono(value, maxValue, BarTrack);
    DivBounds(a, maxValue);
    var w := a / maxValue;
    if w > BarTrack {
      MulMono(BarTrack + 1, w, maxValue);
    }
    if value == maxValue && w < BarTrack {
      MulMono(w + 1, BarTrack, maxValue);
    }
  }

  /** A larger value never gets a narrower bar. */
  lemma {:induction false} BarMonotone(v1: int, v2: int, maxValue: int)
    requires 0 < maxValue && 0 <= v1 <= v2
    ensures MakeBar(v1, maxValue).width <= MakeBar(v2, maxValue).width
  {
    MulMono(v1, v2, BarTrack);
    DivBounds(v1 * BarTrack, maxValue);
    DivBounds(v2 * BarTrack, maxValue);
    var w1 := (v1 * BarTrack) / maxValue;
    var w2 := (v2 * BarTrack) / maxValue;
    if w1 > w2 {
      MulMono(w2 + 1, w1, maxValue);
    }
  }

  /**
   * The fallback of `sniff_delim`: the more frequent of `;` and `,`, with
   * a tie going to `,`.
   */
  function SniffFallback(sample: string): (d: char)
    ensures d == ';' || d == ','
    ensures Count(sample, d) >= Count(sample, if d == ';' then ',' else ';')
    ensures d == ';' ==> Count(sample, ';') != Count(sample, ',')
  {
    if Count(sample, ';') > Count(sample, ',') then ';' else ','
  }

  // ---------------------------------------------------------------------
  // The record loop of main

  const CopperWords: set<string> := {"copper", "cost", "total", "total_cost"}
  const NameWords: set<string> := {"name", "player", "character"}
  const CostWords: set<string> := {"copper", "cost"}

  /** `field.strip().lower()` */
  function Key(field: string): string {
    Lower(Strip(field))
  }

  /** A record `main` reads at all: at least two fields. */
  predicate Usable(record: seq<string>) {
    |record| >= 2
  }

  /** The two header patterns checked on the first usable record. */
  predicate IsHeader(record: seq<string>) {
    && Usable(record)
    && ((ToIntAny(Some(record[1])) == 0 && Key(record[1]) in CopperWords)
        || (Key(record[0]) in NameWords && Key(record[1]) in CostWords))
  }

  /** The row of a usable record, or `None` when its name is empty. */
  function Entry(record: seq<string>): Option<Row> {
    if !Usable(record) || Strip(record[0]) == [] then None
    else Some(Row(Strip(record[0]), ToIntAny(Some(record[1])),
                  if |record| > 2 then ToIntAny(Some(record[2])) else 0))
  }

  /** `Entry` of every record. */
  function Entries(csv: seq<seq<string>>): (es: seq<Option<Row>>)
    ensures |es| == |csv|
  {
    if csv == [] then [] else Entries(csv[..|csv| - 1]) + [Entry(csv[|csv| - 1])]
  }

  /** `IsHeader` of every record. */
  function Headers(csv: seq<seq<string>>): (hs: seq<bool>)
    ensures |hs| == |csv|
  {
    if csv == [] then [] else Headers(csv[..|csv| - 1]) + [IsHeader(csv[|csv| - 1])]
  }

  lemma {:induction false} EntriesAt(csv: seq<seq<string>>, i: nat)
    requires i < |csv|
    ensures Entries(csv)[i] == Entry(csv[i])
    decreases |csv|
  {
    if i < |csv| - 1 {
      EntriesAt(csv[..|csv| - 1], i);
    }
  }

  lemma {:induction false} HeadersAt(csv: seq<seq<string>>, i: nat)
    requires i < |csv|
    ensures Headers(csv)[i] == IsHeader(csv[i])
    decreases |csv|
  {
    if i < |csv| - 1 {
      HeadersAt(csv[..|csv| - 1], i);
    }
  }

  /** `first` is false after the first `n` records: one of them was usable. */
  predicate FirstPassed(csv: seq<seq<string>>, n: nat)
    requires n <= |csv|
  {
    n > 0 && (FirstPassed(csv, n - 1) || Usable(csv[n - 1]))
  }

  /** Record `i` is dropped as the header row. */
  predicate HeaderSkipped(csv: seq<seq<string>>, i: nat)
    requires i < |csv|
  {
    Usable(csv[i]) && !FirstPassed(csv, i) && Headers(csv)[i]
  }

  function OptRow(o: Option<Row>): seq<Row> {
    match o
    case Some(r) => [r]
    case None => []
  }

  /** `rows` after the loop over the first `n` records. */
  function Table(csv: seq<seq<string>>, n: nat): seq<Row>
    requires n <= |csv|
  {
    if n == 0 then []
    else Table(csv, n - 1) + (if HeaderSkipped(csv, n - 1) then [] else OptRow(Entries(csv)[n - 1]))
  }

  /** The record loop of `main`. */
  method ParseTable(csv: seq<seq<string>>) returns (rows: seq<Row>)
    ensures rows == Table(csv, |csv|)
  {
    rows := [];
    var first := true;
    for i := 0 to |csv|
      invariant first == !FirstPassed(csv, i)
      invariant rows == Table(csv, i)
    {
      if |csv[i]| < 2 {
        EntriesAt(csv, i);
        continue;
      }
      if first {
        first := false;
        var header := CheckHeader(csv, i);
        if header {
          continue;
        }
      }
      var entry := ReadEntry(csv, i);
      if entry.Some? {
        rows := rows + [entry.value];
      }
    }
  }

  /** The two header tests of the first usable record. */
  method CheckHeader(csv: seq<seq<string>>, i: nat) returns (header: bool)
    requires i < |csv| && |csv[i]| >= 2
    ensures header == Headers(csv)[i]
  {
    HeadersAt(csv, i);
    var record := csv[i];
    if ToIntAny(Some(record[1])) == 0 && Lower(Strip(record[1])) in CopperWords {
      return true;
    }
    if Lower(Strip(record[0])) in NameWords && Lower(Strip(record[1])) in CostWords {
      return true;
    }
    return false;
  }

  /** The row of a usable record that was not skipped as the header. */
  method ReadEntry(csv: seq<seq<string>>, i: nat) returns (entry: Option<Row>)
    requires i < |csv| && |csv[i]| >= 2
    ensures entry == Entries(csv)[i]
  {
    EntriesAt(csv, i);
    var record := csv[i];
    var name := Strip(record[0]);
    var copper := ToIntAny(Some(record[1]));
    var deaths := if |record| > 2 then ToIntAny(Some(record[2])) else 0;
    if name != [] {
      entry := Some(Row(name, copper, deaths));
    } else {
      entry := None;
    }
  }

  /**
   * The table after `main`'s loop: the rows sorted by copper, most first,
   * their total copper, and `max_copper` (the first row's copper, or 0).
   */
  method ConsumeTable(csv: seq<seq<string>>) returns (rows: seq<Row>, total: int, maxCopper: int)
    ensures rows == ByCopperDesc(Table(csv, |csv|))
    ensures total == TotalCopper(Table(csv, |csv|))
    ensures rows == [] ==> maxCopper == 0
    ensures forall k :: 0 <= k < |rows| ==> rows[k].copper <= maxCopper
    ensures rows != [] ==> maxCopper == rows[0].copper
  {
    var parsed := ParseTable(csv);
    rows := ByCopperDesc(parsed);
    ByCopperDescFacts(parsed);
    TotalsOfSorted(parsed);
    total := TotalCopper(rows);
    maxCopper := if rows != [] then rows[0].copper else 0;
  }

  // ---------------------------------------------------------------------
  // What the loop promises

  /** `first` is cleared by the first usable record and by nothing else. */
  lemma {:induction false} FirstPassedIff(csv: seq<seq<string>>, n: nat)
    requires n <= |csv|
    ensures FirstPassed(csv, n) <==> exists j :: 0 <= j < n && Usable(csv[j])
    decreases n
  {
    if n > 0 {
      FirstPassedIff(csv, n - 1);
      if Usable(csv[n - 1]) {
        assert exists j :: 0 <= j < n && Usable(csv[j]);
      }
    }
  }

  /** At most one record is skipped as a header: the first usable one. */
  lemma {:induction false} HeaderSkippedOnlyFirst(csv: seq<seq<string>>, i: nat, j: nat)
    requires i < j < |csv| && Usable(csv[i])
    ensures !HeaderSkipped(csv, j)
  {
    FirstPassedIff(csv, j);
  }

  /**
   * A row is in the table exactly when some record gives it and that
   * record was not skipped as the header row.
   */
  lemma {:induction false} TableMember(csv: seq<seq<string>>, n: nat, r: Row)
    requires n <= |csv|
    ensures r in Table(csv, n) <==>
      exists i :: 0 <= i < n && Entries(csv)[i] == Some(r) && !HeaderSkipped(csv, i)
    decreases n
  {
    if n > 0 {
      TableMember(csv, n - 1, r);
      if Entries(csv)[n - 1] == Some(r) && !HeaderSkipped(csv, n - 1) {
        assert r in Table(csv, n);
      }
    }
  }

  /** Every row comes from a usable record whose first field, stripped, is its non-empty name. */
  lemma {:induction false} TableRowsNamed(csv: seq<seq<string>>, r: Row)
    requires r in Table(csv, |csv|)
    ensures r.name != []
    ensures exists i :: (0 <= i < |csv| && Usable(csv[i]) && r.name == Strip(csv[i][0])
                         && r.copper == ToIntAny(Some(csv[i][1])))
  {
    TableMember(csv, |csv|, r);
    var i :| 0 <= i < |csv| && Entries(csv)[i] == Some(r) && !HeaderSkipped(csv, i);
    EntriesAt(csv, i);
  }
}
