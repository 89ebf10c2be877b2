/**
 * discord_card.py: the numbers behind the consume card.  `safe_int` reads
 * a number from a CSV field; `parse_sunder_data` reads the Sunder Armor
 * section of summary.txt; `main` turns the CSV rows into the card's rows
 * (dropping pets and non-members, adding the logger's own deaths) and sorts
 * them by copper; `generate_html` adds them up.  The coin formatting is in
 * module Currency.  Files are given as their lines (or, for the CSV, as
 * the fields `csv.reader` splits each line into); the guild, pet and death
 * scrapers that read the combat log are regular-expression matchers whose
 * results are taken as parameters.
 */
module DiscordCard {
  import opened Wrappers
  import opened Text
  import opened Seqs
  import opened ConsumeRows

  // ---------------------------------------------------------------------
  // safe_int

  /** `safe_int(x, default)`: `int(str(x).strip().replace(",", ""))`, or `default` where `int` raises. */
  function SafeInt(x: string, default: int): int {
    match ParseInt(RemoveChar(Strip(x), ','))
    case Some(v) => v
    case None => default
  }

  /** A blank field gives the default. */
  lemma {:induction false} SafeIntBlank(x: string, default: int)
    requires forall k :: 0 <= k < |x| ==> IsSpace(x[k])
    ensures SafeInt(x, default) == default
  {
    assert Strip(x) == [];
    assert RemoveChar([], ',') == [];
  }

  /**
   * A field holding any character other than whitespace, a comma, a digit,
   * a sign or an underscore makes `int` raise, so it gives the default:
   * `"N/A"`, `"12.5"` and `"x"` all read as `default`.
   */
  lemma {:induction false} SafeIntRejects(x: string, default: int, k: int)
    requires 0 <= k < |x| && !IsSpace(x[k]) && x[k] != ',' && !IntChar(x[k])
    ensures SafeInt(x, default) == default
  {
    var c := x[k];
    StripKeeps(x, k);
    var j :| 0 <= j < |Strip(x)| && Strip(x)[j] == c;
    var t := RemoveChar(Strip(x), ',');
    RemoveCharKeeps(Strip(x), ',', j);
    var i :| 0 <= i < |t| && t[i] == c;
    StripKeeps(t, i);
    if ParseInt(t).Some? {
      ParseIntAccepts(t);
      assert false;
    }
  }

  /** `safe_int(str(i)) == i`: a printed integer is read back. */
  lemma {:induction false} SafeIntOfIntToString(i: int, default: int)
    ensures SafeInt(IntToString(i), default) == i
  {
    var s := IntToString(i);
    var n: nat := if i < 0 then -i else i;
    var d := NatToString(n);
    assert forall k :: 0 <= k < |d| ==> IsDigit(d[k]);
    assert s == d || s == "-" + d;
    assert forall k :: 0 <= k < |s| ==> s[k] == '-' || IsDigit(s[k]);
    StripOfNoSpace(s);
    RemoveCharAbsent(s, ',');
    ParseIntOfIntToString(i);
  }

  /** Thousands separators are ignored: `safe_int("1,337") == 1337`. */
  lemma {:induction false} SafeIntIgnoresComma(a: string, b: string, default: int)
    requires a != [] && b != [] && AllDigits(a) && AllDigits(b)
    ensures SafeInt(a + "," + b, default) == DigitsValue(a + b)
  {
    var s := a + [','] + b;
    assert s[0] == a[0] && s[|s| - 1] == b[|b| - 1];
    StripOfNoSpace(s);
    RemoveCharAbsent(a, ',');
    RemoveCharAbsent(b, ',');
    RemoveCharSplit(a, b, ',');
    AllDigitsAppend(a, b);
    ParseIntOfAllDigits(a + b);
  }

  // ---------------------------------------------------------------------
  // parse_sunder_data

  datatype Sunder = Sunder(name: string, trash: int, boss: int)

  const SunderHeader: string := "Sunder Armor Summary"

  /** The line that opens the section. */
  predicate IsHeader(line: string) {
    Contains(line, SunderHeader)
  }

  /** An indented, non-blank line: the section goes on. */
  predicate Continues(line: string) {
    Strip(line) != [] && IsSpace(line[0])
  }

  /** The record of one stripped section line: name and two counts, or name and a total. */
  function SunderOfLine(stripped: string): seq<Sunder> {
    var parts := Words(stripped);
    if |parts| >= 3 then [Sunder(parts[0], SafeInt(parts[1], 0), SafeInt(parts[2], 0))]
    else if |parts| == 2 then [Sunder(parts[0], SafeInt(parts[1], 0), 0)]
    else []
  }

  /** A line of fewer than two words, such as a lone name (see `WordsOfWord`), gives no record. */
  lemma {:induction false} SunderOfShortLine(stripped: string)
    requires |Words(stripped)| < 2
    ensures SunderOfLine(stripped) == []
  {
  }

  /** A line of a name and two printed counts gives those counts; further words are ignored. */
  lemma {:induction false} SunderOfCounts(stripped: string, name: string, trash: int, boss: int, rest: seq<string>)
    requires Words(stripped) == [name, IntToString(trash), IntToString(boss)] + rest
    ensures SunderOfLine(stripped) == [Sunder(name, trash, boss)]
  {
    SafeIntOfIntToString(trash, 0);
    SafeIntOfIntToString(boss, 0);
  }

  /** A line of a name and one printed count gives that count and a boss count of 0. */
  lemma {:induction false} SunderOfTotal(stripped: string, name: string, total: int)
    requires Words(stripped) == [name, IntToString(total)]
    ensures SunderOfLine(stripped) == [Sunder(name, total, 0)]
  {
    SafeIntOfIntToString(total, 0);
  }

  /** The record each line would give if it were read inside the section. */
  function Records(lines: seq<string>): (recs: seq<seq<Sunder>>)
    ensures |recs| == |lines|
  {
    if lines == [] then [] else Records(lines[..|lines| - 1]) + [SunderOfLine(Strip(lines[|lines| - 1]))]
  }

  lemma {:induction false} RecordsAt(lines: seq<string>, k: nat)
    requires k < |lines|
    ensures Records(lines)[k] == SunderOfLine(Strip(lines[k]))
    decreases |lines|
  {
    var init := lines[..|lines| - 1];
    assert Records(lines) == Records(init) + [SunderOfLine(Strip(lines[|lines| - 1]))];
    if k < |lines| - 1 {
      RecordsAt(init, k);
      assert init[k] == lines[k];
    }
  }

  /** `in_sunder_section` after the first `n` lines: some line among them was a header. */
  predicate InSection(lines: seq<string>, n: nat)
    requires n <= |lines|
  {
    n > 0 && (InSection(lines, n - 1) || IsHeader(lines[n - 1]))
  }

  /** The loop has met a line that ends the section among the first `n` lines. */
  predicate Stopped(lines: seq<string>, n: nat)
    requires n <= |lines|
  {
    n > 0 && (Stopped(lines, n - 1) || (InSection(lines, n - 1) && !IsHeader(lines[n - 1]) && !Continues(lines[n - 1])))
  }

  /** Line `k` is read as a record line. */
  predicate Reads(lines: seq<string>, k: nat)
    requires k < |lines|
  {
    InSection(lines, k) && !Stopped(lines, k) && !IsHeader(lines[k]) && Continues(lines[k])
  }

  /** `sunders` after the first `n` lines. */
  function Sunders(lines: seq<string>, n: nat): seq<Sunder>
    requires n <= |lines|
  {
    if n == 0 then []
    else Sunders(lines, n - 1) + (if Reads(lines, n - 1) then Records(lines)[n - 1] else [])
  }

  /** `parse_sunder_data` over the lines of summary.txt (`fileExists` is `summary_path.exists()`). */
  method ParseSunderData(fileExists: bool, lines: seq<string>) returns (sunders: seq<Sunder>)
    ensures !fileExists ==> sunders == []
    ensures fileExists ==> sunders == Sunders(lines, |lines|)
  {
    sunders := [];
    if !fileExists {
      return;
    }
    var inSection := false;
    var i := 0;
    while i < |lines|
      invariant 0 <= i <= |lines|
      invariant inSection == InSection(lines, i) && !Stopped(lines, i)
      invariant sunders == Sunders(lines, i)
    {
      var line := lines[i];
      if IsHeader(line) {
        inSection := true;
      } else if inSection {
        var stop, rec := SectionLine(lines, i);
        if stop {
          StoppedIsFinal(lines, i + 1, |lines|);
          return;
        }
        sunders := sunders + rec;
      }
      i := i + 1;
    }
  }

  /** One line inside the section: a blank or unindented line ends it, any other gives its record. */
  method SectionLine(lines: seq<string>, i: nat) returns (stop: bool, rec: seq<Sunder>)
    requires i < |lines|
    ensures stop <==> !Continues(lines[i])
    ensures !stop ==> rec == Records(lines)[i]
  {
    var line := lines[i];
    var stripped := Strip(line);
    if stripped == [] || !IsSpace(line[0]) {
      return true, [];
    }
    rec := ReadSunderLine(lines, i, stripped);
    stop := false;
  }

  /** The record of one section line, from its stripped text. */
  method ReadSunderLine(lines: seq<string>, i: nat, stripped: string) returns (rec: seq<Sunder>)
    requires i < |lines| && stripped == Strip(lines[i])
    ensures rec == Records(lines)[i]
  {
    RecordsAt(lines, i);
    var parts := Words(stripped);
    if |parts| >= 3 {
      rec := [Sunder(parts[0], SafeInt(parts[1], 0), SafeInt(parts[2], 0))];
    } else if |parts| == 2 {
      rec := [Sunder(parts[0], SafeInt(parts[1], 0), 0)];
    } else {
      rec := [];
    }
  }

  /** Once the section has ended, no later line adds a record. */
  lemma {:induction false} StoppedIsFinal(lines: seq<string>, i: nat, n: nat)
    requires i <= n <= |lines| && Stopped(lines, i)
    ensures Stopped(lines, n) && Sunders(lines, n) == Sunders(lines, i)
    decreases n
  {
    if n > i {
      StoppedIsFinal(lines, i, n - 1);
    }
  }

  /** The section is open after `n` lines exactly when one of them contains the header. */
  lemma {:induction false} InSectionIff(lines: seq<string>, n: nat)
    requires n <= |lines|
    ensures InSection(lines, n) <==> exists j :: 0 <= j < n && IsHeader(lines[j])
    decreases n
  {
    if n > 0 {
      InSectionIff(lines, n - 1);
      if IsHeader(lines[n - 1]) {
        assert exists j :: 0 <= j < n && IsHeader(lines[j]);
      }
    }
  }

  /** The section has ended after `n` lines exactly when one of them, read inside the section, was blank or unindented. */
  lemma {:induction false} StoppedIff(lines: seq<string>, n: nat)
    requires n <= |lines|
    ensures Stopped(lines, n) <==>
      exists m :: 0 <= m < n && InSection(lines, m) && !IsHeader(lines[m]) && !Continues(lines[m])
    decreases n
  {
    if n > 0 {
      StoppedIff(lines, n - 1);
    }
  }

  /** Without a header line nothing is read. */
  lemma {:induction false} NoHeaderNoSunders(lines: seq<string>, n: nat)
    requires n <= |lines|
    requires forall j :: 0 <= j < n ==> !IsHeader(lines[j])
    ensures !InSection(lines, n) && Sunders(lines, n) == []
    decreases n
  {
    if n > 0 {
      NoHeaderNoSunders(lines, n - 1);
    }
  }

  /**
   * Every record comes from a line `k` that follows a header line, is
   * indented and non-blank, is preceded by no line that ended the section,
   * and whose words give that record.
   */
  lemma {:induction false} SunderSource(lines: seq<string>, n: nat, s: Sunder)
    requires n <= |lines| && s in Sunders(lines, n)
    ensures exists k :: 0 <= k < n && Reads(lines, k) && s in Records(lines)[k]
    decreases n
  {
    if s in Sunders(lines, n - 1) {
      SunderSource(lines, n - 1, s);
    } else {
      assert Reads(lines, n - 1) && s in Records(lines)[n - 1];
    }
  }

  // ---------------------------------------------------------------------
  // The row loop of main

  /**
   * One CSV record as `main` treats it: `None` when it is skipped (fewer
   * than two fields, empty name, a pet, or not a guild member when the
   * member list is known), else the row, with the logger's own deaths added
   * to the logger's row.
   */
  function CardRow(fields: seq<string>, pets: set<string>, members: set<string>,
                   logger: Option<string>, loggerDeaths: int): Option<Row>
  {
    if |fields| < 2 then None
    else
      Admit(Strip(fields[0]), SafeInt(fields[1], 0), if |fields| > 2 then SafeInt(fields[2], 0) else 0,
            pets, members, logger, loggerDeaths)
  }

  /** The filter of the row loop, on the name and the two numbers read from a record. */
  function Admit(name: string, copper: int, deaths: int, pets: set<string>, members: set<string>,
                 logger: Option<string>, loggerDeaths: int): Option<Row>
  {
    if name == [] || name in pets then None
    else if members != {} && name !in members then None
    else if logger.Some? && logger.value != [] && name == logger.value then Some(Row(name, copper, deaths + loggerDeaths))
    else Some(Row(name, copper, deaths))
  }

  /**
   * A record is skipped exactly when it has fewer than two fields, an empty
   * name, a pet's name, or (when the member list is known) a non-member's
   * name; a kept record gives the stripped name, the copper and deaths read
   * with `safe_int`, and the logger's own deaths only on the logger's row.
   */
  lemma {:induction false} CardRowRule(fields: seq<string>, pets: set<string>, members: set<string>,
                    logger: Option<string>, loggerDeaths: int)
    ensures CardRow(fields, pets, members, logger, loggerDeaths).None? <==>
      |fields| < 2 || Strip(fields[0]) == [] || Strip(fields[0]) in pets
      || (members != {} && Strip(fields[0]) !in members)
    ensures var r := CardRow(fields, pets, members, logger, loggerDeaths);
      r.Some? ==>
        && r.value.name == Strip(fields[0])
        && r.value.copper == SafeInt(fields[1], 0)
        && r.value.deaths == (if |fields| > 2 then SafeInt(fields[2], 0) else 0)
                             + (if logger.Some? && logger.value != [] && r.value.name == logger.value then loggerDeaths else 0)
  {
  }

  /** Each record of the CSV, read by `CardRow`. */
  function ReadRows(csv: seq<seq<string>>, pets: set<string>, members: set<string>,
                    logger: Option<string>, loggerDeaths: int): (opts: seq<Option<Row>>)
    ensures |opts| == |csv|
  {
    if csv == [] then []
    else ReadRows(csv[..|csv| - 1], pets, members, logger, loggerDeaths) + [CardRow(csv[|csv| - 1], pets, members, logger, loggerDeaths)]
  }

  lemma {:induction false} ReadRowsAt(csv: seq<seq<string>>, pets: set<string>, members: set<string>,
                                      logger: Option<string>, loggerDeaths: int, i: nat)
    requires i < |csv|
    ensures ReadRows(csv, pets, members, logger, loggerDeaths)[i] == CardRow(csv[i], pets, members, logger, loggerDeaths)
    decreases |csv|
  {
    if i < |csv| - 1 {
      ReadRowsAt(csv[..|csv| - 1], pets, members, logger, loggerDeaths, i);
    }
  }

  /** The rows of the records that were not skipped, in order. */
  function Kept(opts: seq<Option<Row>>): seq<Row> {
    if opts == [] then []
    else Kept(opts[..|opts| - 1]) + match opts[|opts| - 1] case Some(r) => [r] case None => []
  }

  /** `rows` after the loop over the CSV records. */
  function CardRows(csv: seq<seq<string>>, pets: set<string>, members: set<string>,
                    logger: Option<string>, loggerDeaths: int): seq<Row>
  {
    Kept(ReadRows(csv, pets, members, logger, loggerDeaths))
  }

  /**
   * The row loop of `main` and the sort after it: `None` where `main` stops
   * with "No valid rows!", else the rows, most copper first.
   */
  method SelectCardRows(csv: seq<seq<string>>, pets: set<string>, members: set<string>,
                        logger: Option<string>, loggerDeaths: int) returns (rows: Option<seq<Row>>)
    ensures rows.None? <==> CardRows(csv, pets, members, logger, loggerDeaths) == []
    ensures rows.Some? ==> rows.value == ByCopperDesc(CardRows(csv, pets, members, logger, loggerDeaths))
  {
    var acc: seq<Row> := [];
    ghost var opts := ReadRows(csv, pets, members, logger, loggerDeaths);
    for i := 0 to |csv|
      invariant acc == Kept(opts[..i])
    {
      var row := ReadCardRow(csv, i, pets, members, logger, loggerDeaths);
      assert opts[..i + 1] == opts[..i] + [row];
      if row.Some? {
        acc := acc + [row.value];
      }
    }
    assert opts[..|csv|] == opts;
    if acc == [] {
      return None;
    }
    return Some(ByCopperDesc(acc));
  }

  /** One pass of the row loop. */
  method ReadCardRow(csv: seq<seq<string>>, i: nat, pets: set<string>, members: set<string>,
                     logger: Option<string>, loggerDeaths: int) returns (row: Option<Row>)
    requires i < |csv|
    ensures row == ReadRows(csv, pets, members, logger, loggerDeaths)[i]
  {
    ReadRowsAt(csv, pets, members, logger, loggerDeaths, i);
    var line := csv[i];
    if |line| < 2 {
      return None;
    }
    var name := Strip(line[0]);
    var copper := SafeInt(line[1], 0);
    var deaths := if |line| > 2 then SafeInt(line[2], 0) else 0;
    row := AdmitRow(name, copper, deaths, pets, members, logger, loggerDeaths);
  }

  method AdmitRow(name: string, copper: int, deaths: int, pets: set<string>, members: set<string>,
                  logger: Option<string>, loggerDeaths: int) returns (row: Option<Row>)
    ensures row == Admit(name, copper, deaths, pets, members, logger, loggerDeaths)
  {
    if name == [] || name in pets {
      return None;
    }
    if members != {} && name !in members {
      return None;
    }
    var d := deaths;
    if logger.Some? && logger.value != [] && name == logger.value {
      d := d + loggerDeaths;
    }
    return Some(Row(name, copper, d));
  }

  /** A row is kept exactly when some record gives it. */
  lemma {:induction false} KeptMember(opts: seq<Option<Row>>, r: Row)
    ensures r in Kept(opts) <==> exists i :: 0 <= i < |opts| && opts[i] == Some(r)
    decreases |opts|
  {
    if opts != [] {
      var init := opts[..|opts| - 1];
      KeptMember(init, r);
      if exists i :: 0 <= i < |opts| && opts[i] == Some(r) {
        var i :| 0 <= i < |opts| && opts[i] == Some(r);
        if i < |init| {
          assert init[i] == Some(r);
        }
      }
      if exists i :: 0 <= i < |init| && init[i] == Some(r) {
        var i :| 0 <= i < |init| && init[i] == Some(r);
        assert opts[i] == Some(r);
      }
    }
  }

  /** A row is on the card exactly when some CSV record passes the filter and gives it. */
  lemma {:induction false} CardRowsMember(csv: seq<seq<string>>, pets: set<string>, members: set<string>,
                                          logger: Option<string>, loggerDeaths: int, r: Row)
    ensures r in CardRows(csv, pets, members, logger, loggerDeaths) <==>
      exists i :: 0 <= i < |csv| && CardRow(csv[i], pets, members, logger, loggerDeaths) == Some(r)
  {
    var opts := ReadRows(csv, pets, members, logger, loggerDeaths);
    KeptMember(opts, r);
    forall i | 0 <= i < |csv|
      ensures opts[i] == CardRow(csv[i], pets, members, logger, loggerDeaths)
    {
      ReadRowsAt(csv, pets, members, logger, loggerDeaths, i);
    }
  }

  /**
   * No pet and no non-member reaches the card, and every row has a name;
   * the card's rows are sorted by copper, most first.
   */
  lemma {:induction false} CardRowsFiltered(csv: seq<seq<string>>, pets: set<string>, members: set<string>,
                         logger: Option<string>, loggerDeaths: int)
    ensures forall r :: r in ByCopperDesc(CardRows(csv, pets, members, logger, loggerDeaths)) ==>
      r.name != [] && r.name !in pets && (members != {} ==> r.name in members)
    ensures forall i, j :: 0 <= i < j < |ByCopperDesc(CardRows(csv, pets, members, logger, loggerDeaths))| ==>
      ByCopperDesc(CardRows(csv, pets, members, logger, loggerDeaths))[i].copper
      >= ByCopperDesc(CardRows(csv, pets, members, logger, loggerDeaths))[j].copper
  {
    var rows := CardRows(csv, pets, members, logger, loggerDeaths);
    ByCopperDescFacts(rows);
    forall r | r in ByCopperDesc(rows) ensures r.name != [] && r.name !in pets && (members != {} ==> r.name in members) {
      assert r in multiset(ByCopperDesc(rows));
      CardRowsMember(csv, pets, members, logger, loggerDeaths, r);
      var i :| 0 <= i < |csv| && CardRow(csv[i], pets, members, logger, loggerDeaths) == Some(r);
      CardRowRule(csv[i], pets, members, logger, loggerDeaths);
    }
  }

  // ---------------------------------------------------------------------
  // The figures of generate_html

  /** `sum(1 for x in rows if x[2] == 0)` */
  function ZeroDeathCount(rows: seq<Row>): (n: nat)
    ensures n <= |rows|
  {
    if rows == [] then 0 else ZeroDeathCount(rows[..|rows| - 1]) + (if rows[|rows| - 1].deaths == 0 then 1 else 0)
  }

  datatype CardFigures = CardFigures(totalCopper: int, totalDeaths: int, players: nat, avgCost: int, zeroDeaths: nat)

  /** The totals, average and zero-death count shown on the card. */
  function Figures(rows: seq<Row>): (f: CardFigures)
    ensures f.totalCopper == TotalCopper(rows) && f.totalDeaths == TotalDeaths(rows)
    ensures f.zeroDeaths == ZeroDeathCount(rows)
    ensures f.players == |rows| && f.zeroDeaths <= f.players
    ensures f.players == 0 ==> f.avgCost == 0
    ensures f.players > 0 ==> f.avgCost * f.players <= f.totalCopper < f.avgCost * f.players + f.players
  {
    var total := TotalCopper(rows);
    var players := |rows|;
    var avg := if players > 0 then total / players else 0;
    CardFigures(total, TotalDeaths(rows), players, avg, ZeroDeathCount(rows))
  }

  /** The positions of the rows with no death. */
  ghost function ZeroDeathRows(rows: seq<Row>): set<int> {
    set k | 0 <= k < |rows| && rows[k].deaths == 0
  }

  /** `ZeroDeathCount` counts exactly the rows with no death. */
  lemma {:induction false} ZeroDeathCountIsCount(rows: seq<Row>)
    ensures ZeroDeathCount(rows) == |ZeroDeathRows(rows)|
    decreases |rows|
  {
    if rows != [] {
      var init := rows[..|rows| - 1];
      var n := |rows| - 1;
      ZeroDeathCountIsCount(init);
      var prev := ZeroDeathRows(init);
      assert n !in prev;
      if rows[n].deaths == 0 {
        assert ZeroDeathRows(rows) == prev + {n} by {
          forall k | k in ZeroDeathRows(rows) ensures k in prev + {n} {
            if k < n { assert init[k] == rows[k]; }
          }
          forall k | k in prev ensures k in ZeroDeathRows(rows) {
            assert init[k] == rows[k];
          }
        }
      } else {
        assert ZeroDeathRows(rows) == prev by {
          forall k | k in ZeroDeathRows(rows) ensures k in prev {
            assert k < n;
            assert init[k] == rows[k];
          }
          forall k | k in prev ensures k in ZeroDeathRows(rows) {
            assert init[k] == rows[k];
          }
        }
      }
    } else {
      assert ZeroDeathRows(rows) == {};
    }
  }

  lemma {:induction false} ZeroDeathAppend(a: seq<Row>, b: seq<Row>)
    ensures ZeroDeathCount(a + b) == ZeroDeathCount(a) + ZeroDeathCount(b)
    decreases |b|
  {
    if b == [] {
      assert a + b == a;
    } else {
      assert (a + b)[..|a + b| - 1] == a + b[..|b| - 1];
      ZeroDeathAppend(a, b[..|b| - 1]);
    }
  }

  lemma {:induction false} ZeroDeathInsert(x: Row, s: seq<Row>)
    ensures ZeroDeathCount(Insert(x, s, NegCopper)) == ZeroDeathCount(s) + (if x.deaths == 0 then 1 else 0)
    decreases |s|
  {
    if s == [] {
      assert Insert(x, s, NegCopper) == [] + [x];
    } else if NegCopper(x) < NegCopper(s[0]) {
      ZeroDeathAppend([x], s);
      assert [x] == [] + [x];
    } else {
      ZeroDeathInsert(x, s[1..]);
      ZeroDeathAppend([s[0]], Insert(x, s[1..], NegCopper));
      ZeroDeathAppend([s[0]], s[1..]);
      assert [s[0]] == [] + [s[0]];
      assert [s[0]] + s[1..] == s;
    }
  }

  lemma {:induction false} ZeroDeathSorted(rows: seq<Row>)
    ensures ZeroDeathCount(ByCopperDesc(rows)) == ZeroDeathCount(rows)
    decreases |rows|
  {
    if rows != [] {
      var init := rows[..|rows| - 1];
      ZeroDeathSorted(init);
      ZeroDeathInsert(rows[|rows| - 1], SortBy(init, NegCopper));
    }
  }

  /** The card's figures are those of the rows in any order: sorting changes none of them. */
  lemma {:induction false} FiguresOfSorted(rows: seq<Row>)
    ensures Figures(ByCopperDesc(rows)) == Figures(rows)
  {
    ByCopperDescFacts(rows);
    TotalsOfSorted(rows);
    ZeroDeathSorted(rows);
  }
}
