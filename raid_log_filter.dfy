/**
 * raid_log_filter.py: a combat log (a sequence of lines) is scanned for
 * `ZONE_INFO:` lines, whose zone names map to raids; the raids found are
 * listed in order of first appearance, one raid is selected, and the log is
 * cut down to the lines written while the most recent zone line named that
 * raid.  Reading and writing files, argument parsing and messages are not
 * modelled: the log is its lines, and the output file is the text returned.
 */
module RaidLogFilter {
  import opened Wrappers
  import opened Text
  import ZoneMatch

  /** `RAID_ZONE_KEYWORDS` of raid_log_filter.py. */
  const RaidZoneKeywords: ZoneMatch.Table := [
    ("Naxxramas", "naxxramas"),
    ("Onyxia's Lair", "onyxia"),
    ("Molten Core", "molten core"),
    ("Blackwing Lair", "blackwing lair"),
    ("Temple of Ahn'Qiraj", "ahn'qiraj temple"),
    ("Ruins of Ahn'Qiraj", "ruins of ahn'qiraj"),
    ("Zul'Gurub", "zul'gurub"),
    ("Zul'Aman", "zul'aman"),
    ("Sunwell Plateau", "sunwell plateau"),
    ("Black Temple", "black temple"),
    ("Karazhan", "karazhan"),
    ("Gruul's Lair", "gruul's lair"),
    ("Magtheridon's Lair", "magtheridon's lair"),
    ("Serpentshrine Cavern", "serpentshrine cavern"),
    ("Tempest Keep", "tempest keep"),
    ("Battle for Mount Hyjal", "hyjal summit")
  ]

  /** The legacy aliases, tried in this order when no keyword matches. */
  const RaidZoneAliases: ZoneMatch.Table := [
    ("Temple of Ahn'Qiraj", "aq40"),
    ("Ruins of Ahn'Qiraj", "aq20"),
    ("Tempest Keep", "tempest"),
    ("Serpentshrine Cavern", "serpentshrine")
  ]

  /**
   * `zone_to_raid`: `None` for a blank zone name; otherwise the first keyword
   * contained in the stripped, lower-cased name, then the first alias.
   */
  function ZoneToRaid(zoneName: string): Option<string> {
    if ZoneMatch.Normalize(zoneName) == [] then None
    else ZoneMatch.MatchZone(RaidZoneKeywords, RaidZoneAliases, zoneName)
  }

  /** A zone name containing a keyword maps to that keyword's raid when no earlier keyword matches. */
  lemma {:induction false} ZoneToRaidKeyword(zoneName: string, i: int)
    requires ZoneMatch.FirstMatchAt(RaidZoneKeywords, ZoneMatch.Normalize(zoneName), i)
    ensures ZoneToRaid(zoneName) == Some(RaidZoneKeywords[i].0)
  {
    var z := ZoneMatch.Normalize(zoneName);
    var r := ZoneMatch.MatchZone(RaidZoneKeywords, RaidZoneAliases, zoneName);
    ZoneMatch.MatchZoneRule(RaidZoneKeywords, RaidZoneAliases, zoneName);
    var j :| ZoneMatch.FirstMatchAt(RaidZoneKeywords, z, j) && RaidZoneKeywords[j].0 == r.value;
    assert j == i;
  }

  /** A keyword-less zone name falls back to the aliases, in their order. */
  lemma {:induction false} ZoneToRaidAlias(zoneName: string, i: int)
    requires ZoneMatch.NoMatch(RaidZoneKeywords, ZoneMatch.Normalize(zoneName))
    requires ZoneMatch.FirstMatchAt(RaidZoneAliases, ZoneMatch.Normalize(zoneName), i)
    ensures ZoneToRaid(zoneName) == Some(RaidZoneAliases[i].0)
  {
    var z := ZoneMatch.Normalize(zoneName);
    var r := ZoneMatch.MatchZone(RaidZoneKeywords, RaidZoneAliases, zoneName);
    ZoneMatch.MatchZoneRule(RaidZoneKeywords, RaidZoneAliases, zoneName);
    var j :| ZoneMatch.FirstMatchAt(RaidZoneAliases, z, j) && RaidZoneAliases[j].0 == r.value;
    assert j == i;
  }

  /** A blank zone name maps to no raid. */
  lemma {:induction false} ZoneToRaidBlank(zoneName: string)
    requires forall k :: 0 <= k < |zoneName| ==> IsSpace(zoneName[k])
    ensures ZoneToRaid(zoneName) == None
  {
  }

  /** `extract_zone_name` */
  function ExtractZoneName(line: string): Option<string> {
    if !Contains(line, "ZONE_INFO:") then None
    else
      var parts := Split(line, '&');
      if |parts| < 2 then None else Some(Strip(parts[1]))
  }

  /**
   * A line whose `&`-separated fields are `parts`, the first of which
   * holds the `ZONE_INFO:` tag, names the zone of its second field
   * (stripped), whatever the other fields are.
   */
  lemma {:induction false} ExtractZoneOfLine(parts: seq<string>)
    requires |parts| >= 2 && Contains(parts[0], "ZONE_INFO:")
    requires forall k :: 0 <= k < |parts| ==> '&' !in parts[k]
    ensures ExtractZoneName(Join(parts, '&')) == Some(Strip(parts[1]))
  {
    var line := Join(parts, '&');
    SplitJoin(parts, '&');
    JoinHead(parts);
    ContainsInPrefix(parts[0], line, "ZONE_INFO:");
    ExtractZoneOfParts(line, parts);
  }

  lemma {:induction false} JoinHead(parts: seq<string>)
    requires |parts| >= 2
    ensures |parts[0]| <= |Join(parts, '&')| && Join(parts, '&')[..|parts[0]|] == parts[0]
  {
    assert Join(parts, '&') == parts[0] + ['&'] + Join(parts[1..], '&');
  }

  lemma {:induction false} ExtractZoneOfParts(line: string, parts: seq<string>)
    requires Contains(line, "ZONE_INFO:") && Split(line, '&') == parts && |parts| >= 2
    ensures ExtractZoneName(line) == Some(Strip(parts[1]))
  {
  }

  lemma {:induction false} ContainsInPrefix(head: string, line: string, sub: string)
    requires Contains(head, sub)
    requires |head| <= |line| && line[..|head|] == head
    ensures Contains(line, sub)
  {
    var i := ContainsWitness(head, sub);
    assert line[i..i + |sub|] == head[i..i + |sub|];
    ContainsAt(line, sub, i);
  }

  /**
   * What one line does to the filter: `None` when it is not a zone line,
   * otherwise `Some` of the raid its zone maps to (itself possibly `None`).
   */
  type Mark = Option<Option<string>>

  function LineMark(line: string): Mark {
    match ExtractZoneName(line)
    case None => None
    case Some(zone) => Some(ZoneToRaid(zone))
  }

  /** `zone = extract_zone_name(line)`, then `zone_to_raid(zone)` when there is one. */
  method ReadZoneLine(line: string) returns (mark: Mark)
    ensures mark == LineMark(line)
  {
    var zone := ExtractZoneName(line);
    if zone.None? {
      return None;
    }
    var raid := ZoneToRaid(zone.value);
    return Some(raid);
  }

  /** The mark of every line of the log. */
  function Marks(lines: seq<string>): (marks: seq<Mark>)
    ensures |marks| == |lines|
  {
    if lines == [] then [] else Marks(lines[..|lines| - 1]) + [LineMark(lines[|lines| - 1])]
  }

  lemma {:induction false} MarkAt(lines: seq<string>, i: nat)
    requires i < |lines|
    ensures Marks(lines)[i] == LineMark(lines[i])
    decreases |lines|
  {
    if i < |lines| - 1 {
      MarkAt(lines[..|lines| - 1], i);
    }
  }

  /** Line `i` is a zone line that maps to `raid`. */
  predicate RaidAt(marks: seq<Mark>, i: int, raid: string)
    requires 0 <= i < |marks|
  {
    marks[i] == Some(Some(raid))
  }

  // ---------------------------------------------------------------------
  // detect_raids

  /** The raids the zone lines name, each once, in order of first appearance. */
  function Detected(marks: seq<Mark>): (raids: seq<string>)
    ensures forall a, b :: 0 <= a < b < |raids| ==> raids[a] != raids[b]
    ensures forall r :: r in raids <==> r != [] && exists i :: 0 <= i < |marks| && RaidAt(marks, i, r)
  {
    if marks == [] then []
    else
      var init := marks[..|marks| - 1];
      var prev := Detected(init);
      var last := marks[|marks| - 1];
      var raids := if last.Some? && last.value.Some? && last.value.value != [] && last.value.value !in prev
                   then prev + [last.value.value] else prev;
      assert forall i :: 0 <= i < |init| ==> marks[i] == init[i];
      forall r | r != [] && exists i :: 0 <= i < |marks| && RaidAt(marks, i, r)
        ensures r in raids
      {
        var i :| 0 <= i < |marks| && RaidAt(marks, i, r);
        if i < |init| {
          assert RaidAt(init, i, r);
        }
      }
      forall r | r in raids ensures r != [] && exists i :: 0 <= i < |marks| && RaidAt(marks, i, r) {
        if r in prev {
          var i :| 0 <= i < |init| && RaidAt(init, i, r);
          assert RaidAt(marks, i, r);
        } else {
          assert RaidAt(marks, |marks| - 1, r);
        }
      }
      raids
  }

  /** A raid some zone line names is in the list. */
  lemma {:induction false} NamedIsDetected(marks: seq<Mark>, j: int, r: string)
    requires 0 <= j < |marks|
    ensures RaidAt(marks, j, r) && r != [] ==> r in Detected(marks)
  {
  }

  /** `Detected` of a longer log extends that of the shorter one by at most the raid of the new line. */
  lemma {:induction false} DetectedStep(marks: seq<Mark>)
    requires marks != []
    ensures var init := marks[..|marks| - 1];
      Detected(marks) == Detected(init)
      || (marks[|marks| - 1].Some? && marks[|marks| - 1].value.Some?
          && Detected(marks) == Detected(init) + [marks[|marks| - 1].value.value])
  {
  }

  /** `detect_raids`, with its `raids` list and `seen` set. */
  method DetectRaids(lines: seq<string>) returns (raids: seq<string>)
    ensures raids == Detected(Marks(lines))
  {
    raids := [];
    var seen: set<string> := {};
    ghost var marks := Marks(lines);
    for i := 0 to |lines|
      invariant raids == Detected(marks[..i])
      invariant seen == set r | r in raids
    {
      raids, seen := DetectLine(lines, marks, i, raids, seen);
    }
    assert marks[..|lines|] == marks;
  }

  /** One pass of the loop of `detect_raids`: line `i` adds its raid unless it is blank or seen. */
  method DetectLine(lines: seq<string>, ghost marks: seq<Mark>, i: nat, raids: seq<string>, seen: set<string>)
    returns (raids': seq<string>, seen': set<string>)
    requires marks == Marks(lines) && i < |lines|
    requires raids == Detected(marks[..i]) && seen == set r | r in raids
    ensures raids' == Detected(marks[..i + 1]) && seen' == set r | r in raids'
  {
    raids', seen' := raids, seen;
    assert marks[..i + 1][..i] == marks[..i];
    var mark := ReadZoneLine(lines[i]);
    MarkAt(lines, i);
    assert marks[..i + 1][i] == mark;
    if mark.None? {
      return;
    }
    var raid := mark.value;
    if raid.None? || raid.value == [] || raid.value in seen {
      return;
    }
    raids' := raids + [raid.value];
    seen' := seen + {raid.value};
  }

  /** In the list, a raid comes before another only when the log names it first. */
  lemma {:induction false} DetectedOrder(marks: seq<Mark>, a: int, b: int)
    requires 0 <= a < b < |Detected(marks)|
    ensures exists i :: 0 <= i < |marks| && RaidAt(marks, i, Detected(marks)[a])
                        && forall j :: 0 <= j <= i ==> !RaidAt(marks, j, Detected(marks)[b])
    decreases |marks|
  {
    var init := marks[..|marks| - 1];
    var raids := Detected(init);
    assert forall i :: 0 <= i < |init| ==> marks[i] == init[i];
    DetectedStep(marks);
    if b < |raids| {
      DetectedOrder(init, a, b);
      var i :| 0 <= i < |init| && RaidAt(init, i, raids[a]) && forall j :: 0 <= j <= i ==> !RaidAt(init, j, raids[b]);
      assert Detected(marks)[a] == raids[a] && Detected(marks)[b] == raids[b];
      assert RaidAt(marks, i, Detected(marks)[a]);
      forall j | 0 <= j <= i ensures !RaidAt(marks, j, raids[b]) {
        assert !RaidAt(init, j, raids[b]);
      }
    } else {
      var r := Detected(marks)[b];
      assert r !in raids;
      assert raids[a] in raids;
      var i :| 0 <= i < |init| && RaidAt(init, i, raids[a]);
      assert RaidAt(marks, i, Detected(marks)[a]);
      forall j | 0 <= j <= i ensures !RaidAt(marks, j, r) {
        NamedIsDetected(init, j, r);
      }
    }
  }

  // ---------------------------------------------------------------------
  // filter_log_to_raid

  /** `current_raid` after the first `n` lines: the raid of the latest zone line among them. */
  function CurrentRaid(marks: seq<Mark>, n: nat): Option<string>
    requires n <= |marks|
  {
    if n == 0 then None
    else
      match marks[n - 1]
      case Some(mapped) => mapped
      case None => CurrentRaid(marks, n - 1)
  }

  /** Line `i` is kept: `current_raid`, once line `i` is read, is the selected raid. */
  predicate Keeps(marks: seq<Mark>, selected: string, i: nat)
    requires i < |marks|
  {
    CurrentRaid(marks, i + 1) == Some(selected)
  }

  /** `lines_out` after the first `n` lines. */
  function KeptLines(lines: seq<string>, marks: seq<Mark>, selected: string, n: nat): seq<string>
    requires |marks| == |lines| && n <= |lines|
  {
    if n == 0 then []
    else KeptLines(lines, marks, selected, n - 1) + (if Keeps(marks, selected, n - 1) then [lines[n - 1]] else [])
  }

  /** `"".join(lines_out)` */
  function Concat(lines: seq<string>): string {
    if lines == [] then [] else Concat(lines[..|lines| - 1]) + lines[|lines| - 1]
  }

  /**
   * `filter_log_to_raid`: the number of kept lines, and the text written to
   * the output file (`None` when nothing is kept and nothing is written).
   */
  method FilterLogToRaid(lines: seq<string>, selected: string) returns (written: Option<string>, kept: nat)
    ensures kept == |KeptLines(lines, Marks(lines), selected, |lines|)|
    ensures kept == 0 <==> written.None?
    ensures written.Some? ==> written.value == Concat(KeptLines(lines, Marks(lines), selected, |lines|))
  {
    var linesOut: seq<string> := [];
    var current: Option<string> := None;
    ghost var marks := Marks(lines);
    for i := 0 to |lines|
      invariant current == CurrentRaid(marks, i)
      invariant linesOut == KeptLines(lines, marks, selected, i)
    {
      current, linesOut := FilterLine(lines, marks, selected, i, current, linesOut);
    }
    if linesOut == [] {
      return None, 0;
    }
    written := Some(Concat(linesOut));
    kept := |linesOut|;
  }

  /** One pass of the loop of `filter_log_to_raid`: a zone line moves `current_raid`, then the line is kept or not. */
  method FilterLine(lines: seq<string>, ghost marks: seq<Mark>, selected: string, i: nat,
                    current: Option<string>, linesOut: seq<string>)
    returns (current': Option<string>, linesOut': seq<string>)
    requires marks == Marks(lines) && i < |lines|
    requires current == CurrentRaid(marks, i) && linesOut == KeptLines(lines, marks, selected, i)
    ensures current' == CurrentRaid(marks, i + 1) && linesOut' == KeptLines(lines, marks, selected, i + 1)
  {
    current', linesOut' := current, linesOut;
    var mark := ReadZoneLine(lines[i]);
    MarkAt(lines, i);
    if mark.Some? {
      current' := mark.value;
    }
    if current' == Some(selected) {
      linesOut' := linesOut' + [lines[i]];
    }
  }

  /**
   * The latest zone line decides: when zone line `j` is the last zone line
   * up to line `i`, line `i` is kept exactly when line `j`'s zone maps to the
   * selected raid.
   */
  lemma {:induction false} KeptAfterZoneLine(marks: seq<Mark>, selected: string, j: nat, i: nat)
    requires j <= i < |marks| && marks[j].Some?
    requires forall k :: j < k <= i ==> marks[k].None?
    ensures CurrentRaid(marks, i + 1) == marks[j].value
    ensures Keeps(marks, selected, i) <==> RaidAt(marks, j, selected)
    decreases i
  {
    if i > j {
      KeptAfterZoneLine(marks, selected, j, i - 1);
    }
  }

  /** Lines before the first zone line are never kept. */
  lemma {:induction false} DroppedBeforeZoneLine(marks: seq<Mark>, selected: string, i: nat)
    requires i < |marks|
    requires forall k :: 0 <= k <= i ==> marks[k].None?
    ensures CurrentRaid(marks, i + 1).None? && !Keeps(marks, selected, i)
    decreases i
  {
    if i > 0 {
      DroppedBeforeZoneLine(marks, selected, i - 1);
    }
  }

  /** The positions of the kept lines among the first `n`, ascending. */
  function KeptIndices(marks: seq<Mark>, selected: string, n: nat): (idx: seq<nat>)
    requires n <= |marks|
    ensures forall k :: 0 <= k < |idx| ==> idx[k] < n
    ensures forall a, b :: 0 <= a < b < |idx| ==> idx[a] < idx[b]
    ensures forall i :: 0 <= i < n ==> (Keeps(marks, selected, i) <==> i in idx)
  {
    if n == 0 then []
    else KeptIndices(marks, selected, n - 1) + (if Keeps(marks, selected, n - 1) then [n - 1] else [])
  }

  /**
   * The output is a subsequence of the log in its own order: the kept lines
   * are the lines at the ascending positions `KeptIndices`, which are
   * exactly the lines `Keeps` selects.
   */
  lemma {:induction false} KeptIsSubsequence(lines: seq<string>, marks: seq<Mark>, selected: string, n: nat)
    requires |marks| == |lines| && n <= |lines|
    ensures |KeptLines(lines, marks, selected, n)| == |KeptIndices(marks, selected, n)|
    ensures forall k :: 0 <= k < |KeptLines(lines, marks, selected, n)| ==>
      KeptLines(lines, marks, selected, n)[k] == lines[KeptIndices(marks, selected, n)[k]]
    decreases n
  {
    if n > 0 {
      KeptIsSubsequence(lines, marks, selected, n - 1);
    }
  }

  // ---------------------------------------------------------------------
  // Choosing the raid

  /** The loop of `main` that looks the `--raid` argument up, ignoring case. */
  method CanonicalRaid(raids: seq<string>, selected: string) returns (canonical: Option<string>)
    ensures canonical == FirstIgnoringCase(raids, selected)
    ensures canonical.None? <==> forall i :: 0 <= i < |raids| ==> Lower(raids[i]) != Lower(selected)
    ensures canonical.Some? ==> exists i :: 0 <= i < |raids| && raids[i] == canonical.value
                                 && Lower(raids[i]) == Lower(selected)
                                 && forall j :: 0 <= j < i ==> Lower(raids[j]) != Lower(selected)
  {
    canonical := None;
    for i := 0 to |raids|
      invariant canonical.None?
      invariant forall j :: 0 <= j < i ==> Lower(raids[j]) != Lower(selected)
    {
      if Lower(raids[i]) == Lower(selected) {
        canonical := Some(raids[i]);
        return;
      }
    }
  }

  /** How `main` settles on a raid: a selected raid, a prompt, or an error exit. */
  datatype Choice = Chosen(raid: string) | Prompt | NoRaids | UnknownRaid | Ambiguous

  /** `main`'s selection once the raids are detected (an empty `--raid` counts as absent). */
  function SelectRaid(raids: seq<string>, raidArg: string, interactive: bool): (c: Choice)
    ensures c.Chosen? ==> c.raid in raids
    ensures raids == [] <==> c == NoRaids
    ensures raids != [] && raidArg != [] ==> c.Chosen? || c == UnknownRaid
    ensures raids != [] && raidArg != [] ==>
      (c.Chosen? <==> exists i :: 0 <= i < |raids| && Lower(raids[i]) == Lower(raidArg))
    ensures c.Chosen? && raidArg != [] ==>
      exists i :: 0 <= i < |raids| && raids[i] == c.raid && Lower(raids[i]) == Lower(raidArg)
                  && forall j :: 0 <= j < i ==> Lower(raids[j]) != Lower(raidArg)
    ensures raids != [] && raidArg == [] && interactive ==> c == Prompt
    ensures raids != [] && raidArg == [] && !interactive ==>
      (c == Chosen(raids[0]) <==> |raids| == 1) && (c == Ambiguous <==> |raids| > 1)
  {
    if raids == [] then NoRaids
    else if raidArg != [] then
      match FirstIgnoringCase(raids, raidArg)
      case Some(r) => Chosen(r)
      case None => UnknownRaid
    else if interactive then Prompt
    else if |raids| == 1 then Chosen(raids[0])
    else Ambiguous
  }

  /** The first raid equal to `name` ignoring case. */
  function FirstIgnoringCase(raids: seq<string>, name: string): (r: Option<string>)
    ensures r.None? <==> forall i :: 0 <= i < |raids| ==> Lower(raids[i]) != Lower(name)
    ensures r.Some? ==> r.value in raids && Lower(r.value) == Lower(name)
    ensures r.Some? ==> exists i :: 0 <= i < |raids| && raids[i] == r.value && Lower(raids[i]) == Lower(name)
                                    && forall j :: 0 <= j < i ==> Lower(raids[j]) != Lower(name)
  {
    if raids == [] then None
    else if Lower(raids[0]) == Lower(name) then Some(raids[0])
    else
      var r := FirstIgnoringCase(raids[1..], name);
      assert forall i :: 1 <= i < |raids| ==> raids[i] == raids[1..][i - 1];
      if r.Some? then
        var i :| 0 <= i < |raids[1..]| && raids[1..][i] == r.value && Lower(raids[1..][i]) == Lower(name)
                 && forall j :: 0 <= j < i ==> Lower(raids[1..][j]) != Lower(name);
        assert raids[i + 1] == r.value;
        r
      else r
  }

  /**
   * One answer to the prompt of `choose_raid_interactive`: a single raid is
   * taken without asking; otherwise a number in range picks that raid, a
   * name picks the raid equal to it ignoring case, and anything else asks
   * again (`None`).
   */
  function InteractiveAnswer(raids: seq<string>, answer: string): (r: Option<string>)
    requires raids != []
    ensures r.Some? ==> r.value in raids
    ensures |raids| == 1 ==> r == Some(raids[0])
    ensures |raids| > 1 && Strip(answer) == [] ==> r.None?
    ensures |raids| > 1 && AllDigits(Strip(answer)) && 1 <= DigitsValue(Strip(answer)) <= |raids|
            ==> r == Some(raids[DigitsValue(Strip(answer)) - 1])
    ensures |raids| > 1 && Strip(answer) != []
            && !(AllDigits(Strip(answer)) && 1 <= DigitsValue(Strip(answer)) <= |raids|)
            ==> r == FirstIgnoringCase(raids, Strip(answer))
  {
    if |raids| == 1 then Some(raids[0])
    else
      var a := Strip(answer);
      if a == [] then None
      else if AllDigits(a) && 1 <= DigitsValue(a) <= |raids| then Some(raids[DigitsValue(a) - 1])
      else FirstIgnoringCase(raids, a)
  }

  /** The number shown next to a raid in the prompt selects that raid. */
  lemma {:induction false} InteractiveNumber(raids: seq<string>, k: nat)
    requires |raids| > 1 && 1 <= k <= |raids|
    ensures InteractiveAnswer(raids, NatToString(k)) == Some(raids[k - 1])
  {
    NatToStringRoundTrip(k);
    StripOfNoSpace(NatToString(k));
  }
}
