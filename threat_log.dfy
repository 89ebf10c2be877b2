/**
 * The records of the threat log and the parsing of one line
 * (generate_threat_report.py): `Entry`, `Snapshot`, `Fight` and its derived
 * `start`/`end`/`duration`, `parse_entry`, `parse_snapshot`, the part-file
 * key `part_sort_key`, and the raid helpers `zone_to_raid`,
 * `detect_raid_from_log`, `infer_raid_from_fights` and
 * `filter_to_boss_fights`.
 *
 * Python's `float()` on a field is a parameter `num` of every parser: a
 * partial map from text to a number, `None` where `float()` raises
 * `ValueError`.  `int(float(x))` truncates toward zero (`Trunc`).
 */
module ThreatLog {
  import opened Wrappers
  import opened Text
  import opened Seqs
  import ZoneMatch

  /** Python's `float()`: `None` where it raises `ValueError`. */
  type FloatParser = string -> Option<real>

  const LineMarker: string := "TWT_THREAT"
  const PacketPrefix: string := "TWTv4="
  const UnknownGuid: string := "UNKNOWN_GUID"
  const UnknownTarget: string := "Unknown Target"

  /** One unit's threat reading in one snapshot. */
  datatype Entry = Entry(time: real, unit: string, tank: int, threat: real, percent: real, melee: int)

  /** One `TWT_THREAT` line: the readings of every unit against one target. */
  datatype Snapshot = Snapshot(time: real, sender: string, targetGuid: string, targetName: string, entries: seq<Entry>)

  /** A run of snapshots against one target. */
  datatype Fight = Fight(targetGuid: string, targetName: string, snapshots: seq<Snapshot>)

  /** `Fight.start`: the time of the first snapshot (an empty fight has none). */
  function Start(f: Fight): real
    requires |f.snapshots| > 0
  {
    f.snapshots[0].time
  }

  /** `Fight.end`: the time of the last snapshot. */
  function End(f: Fight): real
    requires |f.snapshots| > 0
  {
    f.snapshots[|f.snapshots| - 1].time
  }

  /** `Fight.duration`: `max(0.0, end - start)`. */
  function Duration(f: Fight): (d: real)
    requires |f.snapshots| > 0
    ensures d >= 0.0 && d >= End(f) - Start(f)
    ensures d == End(f) - Start(f) || (d == 0.0 && End(f) < Start(f))
  {
    if End(f) - Start(f) > 0.0 then End(f) - Start(f) else 0.0
  }

  /** Sort key for fights: `Start` of a fight with snapshots. */
  function StartKey(f: Fight): real {
    if |f.snapshots| > 0 then Start(f) else 0.0
  }

  /** `int(x)` of a float: truncation toward zero. */
  function Trunc(x: real): (n: int)
    ensures n as real <= x < n as real + 1.0 || n as real - 1.0 < x <= n as real
    ensures 0.0 <= x ==> 0 <= n && n as real <= x
    ensures x <= 0.0 ==> n <= 0 && x <= n as real
  {
    if x >= 0.0 then x.Floor else -((-x).Floor)
  }

  // ---------------------------------------------------------------------
  // parse_entry / parse_snapshot

  /** Every colon field after the unit name parses as a number. */
  predicate NumericFields(parts: seq<string>, num: FloatParser)
    requires |parts| == 5
  {
    num(parts[1]).Some? && num(parts[2]).Some? && num(parts[3]).Some? && num(parts[4]).Some?
  }

  /**
   * `parse_entry`: `unit:tank:threat:percent:melee`.  A chunk with other than
   * five fields, or with a field `float()` rejects, gives `None`.
   */
  function ParseEntry(raw: string, snapTime: real, num: FloatParser): (r: Option<Entry>)
    ensures r.Some? <==> |Split(raw, ':')| == 5 && NumericFields(Split(raw, ':'), num)
    ensures r.Some? ==>
      var parts := Split(raw, ':');
      && r.value.time == snapTime
      && r.value.unit == Strip(parts[0])
      && r.value.tank == Trunc(num(parts[1]).value)
      && Some(r.value.threat) == num(parts[2])
      && Some(r.value.percent) == num(parts[3])
      && r.value.melee == Trunc(num(parts[4]).value)
  {
    var parts := Split(raw, ':');
    if |parts| != 5 then None
    else
      match (num(parts[1]), num(parts[2]), num(parts[3]), num(parts[4]))
      case (Some(tank), Some(threat), Some(pct), Some(melee)) =>
        Some(Entry(snapTime, Strip(parts[0]), Trunc(tank), threat, pct, Trunc(melee)))
      case _ => None
  }

  /**
   * Re-serializing a reading and parsing it again: five colon-free fields
   * that `float()` accepts come back as the entry they describe.
   */
  lemma {:induction false} ParseEntryOfRecord(fields: seq<string>, snapTime: real, num: FloatParser,
                           tank: real, threat: real, pct: real, melee: real)
    requires |fields| == 5
    requires forall k :: 0 <= k < 5 ==> ':' !in fields[k]
    requires num(fields[1]) == Some(tank) && num(fields[2]) == Some(threat)
    requires num(fields[3]) == Some(pct) && num(fields[4]) == Some(melee)
    ensures ParseEntry(Join(fields, ':'), snapTime, num)
            == Some(Entry(snapTime, Strip(fields[0]), Trunc(tank), threat, pct, Trunc(melee)))
  {
    SplitJoin(fields, ':');
  }

  /** The chunks of a payload that parse to an entry with a non-empty unit, in order. */
  function EntriesOf(chunks: seq<string>, snapTime: real, num: FloatParser): (es: seq<Entry>)
    ensures |es| <= |chunks|
    ensures forall k :: 0 <= k < |es| ==> es[k].time == snapTime && es[k].unit != []
  {
    if chunks == [] then []
    else
      var es := EntriesOf(chunks[..|chunks| - 1], snapTime, num);
      match ParseEntry(Strip(chunks[|chunks| - 1]), snapTime, num)
      case Some(e) => if e.unit != [] then es + [e] else es
      case None => es
  }

  /** The tab-separated columns of a line, trailing newlines removed. */
  function Columns(line: string): seq<string> {
    Split(RStripNewlines(line), '\t')
  }

  /** The header checks of `parse_snapshot`: marker, six columns, numeric time, packet prefix. */
  predicate SnapshotHeader(cols: seq<string>, num: FloatParser) {
    && |cols| >= 6
    && cols[0] == LineMarker
    && num(cols[1]).Some?
    && StartsWith(cols[5], PacketPrefix)
  }

  function Payload(cols: seq<string>): string
    requires |cols| >= 6 && StartsWith(cols[5], PacketPrefix)
  {
    cols[5][|PacketPrefix|..]
  }

  /**
   * `parse_snapshot`, the value it returns.  A line that is not a snapshot,
   * or whose payload yields no entry, gives `None`; an empty target id or
   * name is replaced by a placeholder.
   */
  function SnapshotOf(line: string, num: FloatParser): (r: Option<Snapshot>)
    ensures var cols := Columns(line);
      r.Some? <==> SnapshotHeader(cols, num)
                   && EntriesOf(Split(Payload(cols), ';'), num(cols[1]).value, num) != []
    ensures r.Some? ==>
      var cols := Columns(line);
      && Some(r.value.time) == num(cols[1])
      && r.value.sender == cols[2]
      && r.value.targetGuid == (if cols[3] == [] then UnknownGuid else cols[3])
      && r.value.targetName == (if cols[4] == [] then UnknownTarget else cols[4])
      && r.value.targetGuid != [] && r.value.targetName != []
      && |r.value.entries| > 0
      && forall k :: 0 <= k < |r.value.entries| ==>
           r.value.entries[k].time == r.value.time && r.value.entries[k].unit != []
  {
    var cols := Columns(line);
    if !SnapshotHeader(cols, num) then None
    else
      var t := num(cols[1]).value;
      var entries := EntriesOf(Split(Payload(cols), ';'), t, num);
      if entries == [] then None
      else
        Some(Snapshot(t, cols[2],
                      if cols[3] == [] then UnknownGuid else cols[3],
                      if cols[4] == [] then UnknownTarget else cols[4],
                      entries))
  }

  /** The loop of `parse_snapshot` over the `;`-separated chunks of the payload. */
  method CollectEntries(chunks: seq<string>, snapTime: real, num: FloatParser) returns (entries: seq<Entry>)
    ensures entries == EntriesOf(chunks, snapTime, num)
  {
    entries := [];
    for i := 0 to |chunks|
      invariant entries == EntriesOf(chunks[..i], snapTime, num)
    {
      assert chunks[..i + 1][..i] == chunks[..i];
      var parsed := ParseEntry(Strip(chunks[i]), snapTime, num);
      if parsed.Some? && parsed.value.unit != [] {
        entries := entries + [parsed.value];
      }
    }
    assert chunks[..|chunks|] == chunks;
  }

  /** `parse_snapshot` */
  method ParseSnapshot(line: string, num: FloatParser) returns (r: Option<Snapshot>)
    ensures r == SnapshotOf(line, num)
  {
    var cols := Columns(line);
    if !SnapshotHeader(cols, num) {
      return None;
    }
    var snapTime := num(cols[1]).value;
    var entries := CollectEntries(Split(Payload(cols), ';'), snapTime, num);
    if entries == [] {
      return None;
    }
    r := Some(Snapshot(snapTime, cols[2],
                       if cols[3] == [] then UnknownGuid else cols[3],
                       if cols[4] == [] then UnknownTarget else cols[4],
                       entries));
  }

  // ---------------------------------------------------------------------
  // part_sort_key

  /** `name` ends with `suffix`, ignoring ASCII case. */
  predicate EndsWithIgnoreCase(name: string, suffix: string) {
    |suffix| <= |name| && Lower(name[|name| - |suffix|..]) == suffix
  }

  /** Length of the run of digits at the end of `s`. */
  function TrailingDigits(s: string): (n: nat)
    ensures n <= |s| && AllDigits(s[|s| - n..])
    ensures n == |s| || !IsDigit(s[|s| - n - 1])
  {
    if s == [] || !IsDigit(s[|s| - 1]) then 0
    else
      var init := s[..|s| - 1];
      var n := TrailingDigits(init);
      assert s[|s| - (n + 1)..] == init[|init| - n..] + [s[|s| - 1]];
      AllDigitsAppend(init[|init| - n..], [s[|s| - 1]]);
      assert n + 1 < |s| ==> s[|s| - (n + 1) - 1] == init[|init| - n - 1];
      n + 1
  }

  /** The number in `..._part<digits>` at the end of `stem`, if the stem ends that way. */
  function PartNumber(stem: string): Option<nat> {
    var n := TrailingDigits(stem);
    if n > 0 && |stem| >= n + 5 && Lower(stem[|stem| - n - 5..|stem| - n]) == "_part"
    then Some(DigitsValue(stem[|stem| - n..]))
    else None
  }

  /**
   * The number matched by `_part(\d+)\.txt(?:\.txt)?$` (ignoring case) in a
   * file name.  Only one split of the name can match: before a final
   * `.txt.txt` the text ends in `t`, not in a digit.
   */
  function PartIndex(name: string): Option<nat> {
    if EndsWithIgnoreCase(name, ".txt.txt") && PartNumber(name[..|name| - 8]).Some? then
      PartNumber(name[..|name| - 8])
    else if EndsWithIgnoreCase(name, ".txt") then
      PartNumber(name[..|name| - 4])
    else
      None
  }

  /** `part_sort_key`: `(part number or 0, name)`. */
  function PartSortKey(name: string): (key: (int, string))
    ensures key.1 == name
    ensures key.0 >= 0
    ensures !EndsWithIgnoreCase(name, ".txt") ==> key.0 == 0
  {
    (match PartIndex(name) case Some(n) => n case None => 0, name)
  }

  lemma {:induction false} TrailingDigitsOf(prefix: string, digits: string)
    requires AllDigits(digits)
    requires prefix == [] || !IsDigit(prefix[|prefix| - 1])
    ensures TrailingDigits(prefix + digits) == |digits|
    decreases |digits|
  {
    if digits != [] {
      var s := prefix + digits;
      assert s[|s| - 1] == digits[|digits| - 1];
      assert IsDigit(s[|s| - 1]);
      assert s[..|s| - 1] == prefix + digits[..|digits| - 1];
      assert AllDigits(digits[..|digits| - 1]);
      TrailingDigitsOf(prefix, digits[..|digits| - 1]);
    } else {
      assert prefix + digits == prefix;
    }
  }

  /** A part file named `<prefix>_part<n>.txt` sorts under its number `n`. */
  lemma {:induction false} PartSortKeyOfPartFile(prefix: string, n: nat)
    ensures PartSortKey(prefix + "_part" + NatToString(n) + ".txt").0 == n
  {
    var stem := prefix + "_part" + NatToString(n);
    PartNumberOfStem(prefix, n);
    PartIndexOfTxt(stem);
  }

  /** A name `<prefix>_part<n>.txt.txt`, the doubled extension the pattern allows, also sorts under `n`. */
  lemma {:induction false} PartSortKeyOfDoubleTxt(prefix: string, n: nat)
    ensures PartSortKey(prefix + "_part" + NatToString(n) + ".txt.txt").0 == n
  {
    var stem := prefix + "_part" + NatToString(n);
    var name := stem + ".txt.txt";
    PartNumberOfStem(prefix, n);
    assert name[..|name| - 8] == stem;
    assert name[|name| - 8..] == ".txt.txt";
    assert Lower(".txt.txt") == ".txt.txt";
  }

  /** A name in which `_part` does not occur, in any case, sorts under 0. */
  lemma {:induction false} PartSortKeyWithoutPart(name: string)
    requires !Contains(Lower(name), "_part")
    ensures PartSortKey(name).0 == 0
  {
    if |name| >= 8 && PartNumber(name[..|name| - 8]).Some? {
      PartNumberNeedsPart(name, |name| - 8);
    }
    if |name| >= 4 && PartNumber(name[..|name| - 4]).Some? {
      PartNumberNeedsPart(name, |name| - 4);
    }
  }

  /** A prefix of `name` with a part number has `_part` in it. */
  lemma {:induction false} PartNumberNeedsPart(name: string, k: nat)
    requires k <= |name| && PartNumber(name[..k]).Some?
    ensures Contains(Lower(name), "_part")
  {
    var stem := name[..k];
    var n := TrailingDigits(stem);
    var i := |stem| - n - 5;
    assert Lower(name)[i..i + 5] == Lower(stem[i..i + 5]) by {
      assert name[i..i + 5] == stem[i..i + 5];
    }
    ContainsAt(Lower(name), "_part", i);
  }

  /** The stem `<prefix>_part<n>` carries the part number `n`. */
  lemma {:induction false} PartNumberOfStem(prefix: string, n: nat)
    ensures PartNumber(prefix + "_part" + NatToString(n)) == Some(n)
    ensures IsDigit((prefix + "_part" + NatToString(n))[|prefix + "_part" + NatToString(n)| - 1])
  {
    var digits := NatToString(n);
    var stem := prefix + "_part" + digits;
    NatToStringRoundTrip(n);
    TrailingDigitsOf(prefix + "_part", digits);
    assert stem[|stem| - |digits| - 5..|stem| - |digits|] == "_part";
    assert Lower("_part") == "_part";
    assert stem[|stem| - |digits|..] == digits;
    assert stem[|stem| - 1] == digits[|digits| - 1];
  }

  /** A name `<stem>.txt` whose stem ends in a digit is read from the stem alone. */
  lemma {:induction false} PartIndexOfTxt(stem: string)
    requires stem != [] && IsDigit(stem[|stem| - 1])
    ensures PartIndex(stem + ".txt") == PartNumber(stem)
  {
    var name := stem + ".txt";
    assert name[..|name| - 4] == stem;
    assert name[|name| - 4..] == ".txt";
    assert Lower(".txt") == ".txt";
    assert EndsWithIgnoreCase(name, ".txt");
    if |name| >= 8 {
      assert name[|name| - 5] == stem[|stem| - 1];
      assert Lower(name[|name| - 8..])[3] == LowerChar(name[|name| - 5]) != '.';
    }
    assert !EndsWithIgnoreCase(name, ".txt.txt");
  }

  // ---------------------------------------------------------------------
  // Raid helpers

  /** `RAID_ZONE_KEYWORDS` of the threat report. */
  const RaidZoneKeywords: ZoneMatch.Table := [
    ("Naxxramas", "naxxramas"),
    ("Onyxia's Lair", "onyxia"),
    ("Molten Core", "molten core"),
    ("Blackwing Lair", "blackwing lair"),
    ("Temple of Ahn'Qiraj", "ahn'qiraj temple"),
    ("Ruins of Ahn'Qiraj", "ruins of ahn'qiraj"),
    ("Zul'Gurub", "zul'gurub")
  ]

  /** The aliases the threat report tries afterwards, in its order: `aq20` before `aq40`. */
  const RaidZoneAliases: ZoneMatch.Table := [
    ("Ruins of Ahn'Qiraj", "aq20"),
    ("Temple of Ahn'Qiraj", "aq40")
  ]

  /** `zone_to_raid` of generate_threat_report.py. */
  function ZoneToRaid(zoneName: string): Option<string> {
    ZoneMatch.MatchZone(RaidZoneKeywords, RaidZoneAliases, zoneName)
  }

  /** A blank zone name maps to no raid, although this version has no explicit check. */
  lemma {:induction false} ZoneToRaidBlank(zoneName: string)
    requires forall i :: 0 <= i < |zoneName| ==> IsSpace(zoneName[i])
    ensures ZoneToRaid(zoneName) == None
  {
    ZoneMatch.NoMatchInEmpty(RaidZoneKeywords);
    ZoneMatch.NoMatchInEmpty(RaidZoneAliases);
    ZoneMatch.MatchZoneRule(RaidZoneKeywords, RaidZoneAliases, zoneName);
  }

  /** The zone name of a `ZONE_INFO:` line: the second `&` field (unstripped here). */
  function ZoneField(line: string): Option<string> {
    if !Contains(line, "ZONE_INFO:") then None
    else
      var parts := Split(line, '&');
      if |parts| < 2 then None else Some(parts[1])
  }

  /** `detect_raid_from_log` over the lines of the combat log. */
  method DetectRaidFromLog(lines: seq<string>) returns (raid: Option<string>)
    ensures raid.None? <==> forall i :: 0 <= i < |lines| ==> LineRaid(lines[i]).None?
    ensures raid.Some? ==> exists i :: 0 <= i < |lines| && LineRaid(lines[i]) == raid
                                       && forall j :: 0 <= j < i ==> LineRaid(lines[j]).None?
  {
    for i := 0 to |lines|
      invariant forall j :: 0 <= j < i ==> LineRaid(lines[j]).None?
    {
      var zone := ZoneField(lines[i]);
      if zone.Some? {
        var r := ZoneToRaid(zone.value);
        if r.Some? && r.value != [] {
          return r;
        }
      }
    }
    return None;
  }

  /** The raid a line names, when it is a zone line whose zone maps to a (non-empty) raid. */
  function LineRaid(line: string): Option<string> {
    match ZoneField(line)
    case None => None
    case Some(z) =>
      var r := ZoneToRaid(z);
      if r.Some? && r.value != [] then r else None
  }

  /** `RAID_BOSSES`, in its order. */
  const RaidBosses: seq<(string, seq<string>)> := [
    ("Naxxramas", ["Anub'Rekhan", "Grand Widow Faerlina", "Maexxna", "Noth the Plaguebringer",
                   "Heigan the Unclean", "Loatheb", "Instructor Razuvious", "Gothik the Harvester",
                   "The Four Horsemen", "Patchwerk", "Grobbulus", "Gluth", "Thaddius", "Sapphiron", "Kel'Thuzad"]),
    ("Onyxia's Lair", ["Onyxia"]),
    ("Molten Core", ["Lucifron", "Magmadar", "Gehennas", "Garr", "Shazzrah", "Baron Geddon",
                     "Golemagg the Incinerator", "Sulfuron Harbinger", "Majordomo Executus", "Ragnaros"]),
    ("Blackwing Lair", ["Razorgore the Untamed", "Vaelastrasz the Corrupt", "Broodlord Lashlayer", "Firemaw",
                        "Ebonroc", "Flamegor", "Chromaggus", "Nefarian"]),
    ("Temple of Ahn'Qiraj", ["The Prophet Skeram", "Battleguard Sartura", "Fankriss the Unyielding", "Princess Huhuran",
                             "Viscidus", "Twin Emperors", "Ouro", "C'Thun"]),
    ("Ruins of Ahn'Qiraj", ["Kurinnaxx", "General Rajaxx", "Moam", "Buru the Gorger", "Ayamiss the Hunter",
                            "Ossirian the Unscarred"]),
    ("Zul'Gurub", ["High Priest Venoxis", "High Priestess Jeklik", "High Priestess Mar'li", "High Priest Thekal",
                   "High Priestess Arlokk", "Jin'do the Hexxer", "Hakkar"])
  ]

  /** `{f.target_name for f in fights}` */
  function TargetNames(fights: seq<Fight>): set<string> {
    set f | f in fights :: f.targetName
  }

  /** `len(target_names.intersection(bosses))` */
  function Hits(names: set<string>, bosses: seq<string>): nat {
    |names * (set b | b in bosses)|
  }

  /** Raid `i` has the most hits, more than zero, and every earlier raid has fewer. */
  ghost predicate FirstBest(names: set<string>, i: int) {
    && 0 <= i < |RaidBosses|
    && Hits(names, RaidBosses[i].1) > 0
    && (forall j :: 0 <= j < |RaidBosses| ==> Hits(names, RaidBosses[j].1) <= Hits(names, RaidBosses[i].1))
    && (forall j :: 0 <= j < i ==> Hits(names, RaidBosses[j].1) < Hits(names, RaidBosses[i].1))
  }

  /**
   * `infer_raid_from_fights`: the raid whose boss list shares the most names
   * with the fights' targets, the earliest one on a tie, or `None` when no
   * target is a boss.
   */
  method InferRaidFromFights(fights: seq<Fight>) returns (raid: Option<string>)
    ensures raid.None? <==> forall j :: 0 <= j < |RaidBosses| ==> Hits(TargetNames(fights), RaidBosses[j].1) == 0
    ensures raid.Some? ==> exists i :: FirstBest(TargetNames(fights), i) && RaidBosses[i].0 == raid.value
  {
    var names := TargetNames(fights);
    var bestRaid: Option<string> := None;
    var bestHits := 0;
    ghost var bestIndex := -1;
    for i := 0 to |RaidBosses|
      invariant forall j :: 0 <= j < i ==> Hits(names, RaidBosses[j].1) <= bestHits
      invariant bestHits == 0 <==> bestRaid.None?
      invariant bestHits == 0 ==> bestIndex == -1
      invariant bestHits > 0 ==>
        && 0 <= bestIndex < i
        && bestRaid == Some(RaidBosses[bestIndex].0)
        && Hits(names, RaidBosses[bestIndex].1) == bestHits
        && forall j :: 0 <= j < bestIndex ==> Hits(names, RaidBosses[j].1) < bestHits
    {
      var hits := Hits(names, RaidBosses[i].1);
      if hits > bestHits {
        bestHits := hits;
        bestRaid := Some(RaidBosses[i].0);
        bestIndex := i;
      }
    }
    raid := if bestHits > 0 then bestRaid else None;
    if bestHits > 0 {
      assert FirstBest(names, bestIndex);
    }
  }

  /** `set(RAID_BOSSES.get(raid_name, []))` */
  function BossNames(raidName: string): (names: set<string>)
    ensures (forall i :: 0 <= i < |RaidBosses| ==> RaidBosses[i].0 != raidName) ==> names == {}
    ensures forall i :: 0 <= i < |RaidBosses| && RaidBosses[i].0 == raidName ==> names == set b | b in RaidBosses[i].1
  {
    RaidNamesDistinct();
    BossNamesIn(RaidBosses, raidName)
  }

  /** The boss list of the first row of `table` named `raidName`, or nothing. */
  function BossNamesIn(table: seq<(string, seq<string>)>, raidName: string): (names: set<string>)
    ensures (forall i :: 0 <= i < |table| ==> table[i].0 != raidName) ==> names == {}
    ensures forall i :: (0 <= i < |table| && table[i].0 == raidName && (forall j :: 0 <= j < i ==> table[j].0 != raidName)
                         ==> names == set b | b in table[i].1)
  {
    if table == [] then {}
    else if table[0].0 == raidName then set b | b in table[0].1
    else
      var r := BossNamesIn(table[1..], raidName);
      assert forall i :: 0 < i < |table| ==> table[i] == table[1..][i - 1];
      r
  }

  /** The raids of `RAID_BOSSES` are dictionary keys: no name occurs twice. */
  lemma {:induction false} RaidNamesDistinct()
    ensures forall i, j :: 0 <= j < i < |RaidBosses| ==> RaidBosses[j].0 != RaidBosses[i].0
  {
  }

  /** The fights whose target is one of `names`, in order. */
  function FightsAgainst(fights: seq<Fight>, names: set<string>): (r: seq<Fight>)
    ensures |r| <= |fights|
    ensures forall f :: f in r <==> f in fights && f.targetName in names
  {
    if fights == [] then []
    else
      FightsAgainst(fights[..|fights| - 1], names)
      + (if fights[|fights| - 1].targetName in names then [fights[|fights| - 1]] else [])
  }

  /** A fight against a named boss is kept as often as it occurs; any other fight is dropped. */
  lemma {:induction false} FightsAgainstCounts(fights: seq<Fight>, names: set<string>, f: Fight)
    ensures multiset(FightsAgainst(fights, names))[f] == if f.targetName in names then multiset(fights)[f] else 0
    decreases |fights|
  {
    if fights != [] {
      var init := fights[..|fights| - 1];
      var last := fights[|fights| - 1];
      assert fights == init + [last];
      FightsAgainstCounts(init, names, f);
    }
  }

  /** `filter_to_boss_fights`: no boss names keeps every fight. */
  function FilterToBossFights(fights: seq<Fight>, bossNames: set<string>): (r: seq<Fight>)
    ensures bossNames == {} ==> r == fights
    ensures bossNames != {} ==> forall f :: f in r <==> f in fights && f.targetName in bossNames
  {
    if bossNames == {} then fights else FightsAgainst(fights, bossNames)
  }

  /** Keeping the boss fights keeps them in start-time order. */
  lemma {:induction false} FightsAgainstSorted(fights: seq<Fight>, names: set<string>)
    requires SortedBy(fights, StartKey)
    ensures SortedBy(FightsAgainst(fights, names), StartKey)
    decreases |fights|
  {
    if fights != [] {
      var init := fights[..|fights| - 1];
      assert SortedBy(init, StartKey);
      FightsAgainstSorted(init, names);
      var r := FightsAgainst(init, names);
      forall f | f in r ensures StartKey(f) <= StartKey(fights[|fights| - 1]) {
        var j :| 0 <= j < |init| && init[j] == f;
      }
    }
  }

  /** A raid name without a boss list (such as "Unknown Raid") keeps every fight. */
  lemma {:induction false} UnknownRaidKeepsAllFights(fights: seq<Fight>, raidName: string)
    requires forall i :: 0 <= i < |RaidBosses| ==> RaidBosses[i].0 != raidName
    ensures FilterToBossFights(fights, BossNames(raidName)) == fights
  {
  }
}
